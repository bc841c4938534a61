/** Any number of sessions for one file, and sessions that are not cut. */
module TransferRuns {
  import opened Options
  import opened Sequences
  import opened Sockets
  import opened Framing
  import opened Fields
  import opened FileNames
  import opened FileBlocks
  import opened FileTransfer
  import opened TransferTheorems
  import opened Negotiation
  import opened NegotiationTheorems

  datatype Session =
    | Upload(clientStop: nat, client: Io, ok: bool, canOpen: bool, stop: nat, server: Io)
    | Download(canOpen: bool, stop: nat, client: Io, serverFiles: Files, serverStop: nat, server: Io, serverResult: Result)

  /** A session for `source` under `name` between ends that each read a prefix of what the
      other wrote; `last` is what the client's variable held before. */
  ghost predicate Happens(session: Session, last: Text, name: Text, source: seq<byte>, max: nat, files: Files, after: Files, result: Result) {
    && Connected(session.client, session.server)
    && match session
       case Upload(clientStop, client, ok, canOpen, stop, server) =>
         && SendCommandDoes(source, name, last, clientStop, max, client, ok)
         && ServeDoes(files, canOpen, stop, max, server, after, result)
       case Download(canOpen, stop, client, serverFiles, serverStop, server, serverResult) =>
         && (name in serverFiles ==> serverFiles[name] == source)
         && GetCommandDoes(files, name, last, canOpen, stop, max, client, after, result)
         && ServeDoes(serverFiles, true, serverStop, max, server, serverFiles, serverResult)
  }

  lemma SessionKeepsPrefix(session: Session, last: Text, name: Text, source: seq<byte>, max: nat, files: Files, after: Files, result: Result)
    requires Resumable(files, name, source) && |source| < WORD && AnswersFit(max) && PlainName(name)
    requires Happens(session, last, name, source, max, files, after, result)
    ensures SafeStep(files, after, name, source, result) && Resumable(after, name, source)
  {
    match session
    case Upload(clientStop, client, ok, canOpen, stop, server) =>
      UploadIsSafe(files, name, source, max, last, clientStop, client, ok, canOpen, stop, server, after, result);
    case Download(canOpen, stop, client, serverFiles, serverStop, server, serverResult) =>
      DownloadIsSafe(files, name, source, max, last, canOpen, stop, client, after, result,
                     serverFiles, true, serverStop, server, serverFiles, serverResult);
  }

  /** The files that were there, but for the temporary one, are as they were, and every other
      file is the source. */
  ghost predicate OnlyCopiesAdded(before: Files, after: Files, name: Text, source: seq<byte>) {
    var tmp := TmpName(name);
    && (forall x | x in before && x != tmp :: x in after && after[x] == before[x])
    && (forall x | x in after && x !in before && x != tmp :: after[x] == source)
  }

  lemma OneMoreCopy(before: Files, files: Files, after: Files, name: Text, source: seq<byte>, result: Result)
    requires OnlyCopiesAdded(before, files, name, source) && SafeStep(files, after, name, source, result)
    ensures OnlyCopiesAdded(before, after, name, source)
    ensures |after.Keys - {TmpName(name)}| == |files.Keys - {TmpName(name)}| + if result == Succeeded then 1 else 0
  {
    var tmp := TmpName(name);
    if result == Succeeded {
      var free :| free !in files && free != tmp && after == (files - {tmp})[free := source];
      CopyAdded(files, after, tmp, free, source);
    } else {
      OnlyTmpChanged(files, after, tmp);
    }
  }

  lemma CopyAdded(files: Files, after: Files, tmp: Text, free: Text, source: seq<byte>)
    requires free !in files && free != tmp && after == (files - {tmp})[free := source]
    ensures |after.Keys - {tmp}| == |files.Keys - {tmp}| + 1
    ensures forall x | x in files && x != tmp :: x in after && after[x] == files[x]
    ensures forall x | x in after && x != free :: x in files && after[x] == files[x]
    ensures free in after && after[free] == source
  {
    assert after.Keys - {tmp} == (files.Keys - {tmp}) + {free};
  }

  lemma OnlyTmpChanged(files: Files, after: Files, tmp: Text)
    requires after - {tmp} == files - {tmp}
    ensures after.Keys - {tmp} == files.Keys - {tmp}
    ensures forall x | x in files && x != tmp :: x in after && after[x] == files[x]
    ensures forall x | x in after && x != tmp :: x in files && after[x] == files[x]
  {
    assert (after - {tmp}).Keys == after.Keys - {tmp} && (files - {tmp}).Keys == files.Keys - {tmp};
    forall x | x in files && x != tmp ensures x in after && after[x] == files[x] { assert x in files - {tmp}; }
    forall x | x in after && x != tmp ensures x in files && after[x] == files[x] { assert x in after - {tmp}; }
  }

  lemma OneMoreSession(before: Files, session: Session, last: Text, name: Text, source: seq<byte>, max: nat,
                       files: Files, after: Files, result: Result)
    requires Resumable(files, name, source) && |source| < WORD && AnswersFit(max) && PlainName(name)
    requires OnlyCopiesAdded(before, files, name, source)
    requires Happens(session, last, name, source, max, files, after, result)
    ensures Resumable(after, name, source) && SafeStep(files, after, name, source, result)
    ensures OnlyCopiesAdded(before, after, name, source)
    ensures |after.Keys - {TmpName(name)}| == |files.Keys - {TmpName(name)}| + if result == Succeeded then 1 else 0
  {
    SessionKeepsPrefix(session, last, name, source, max, files, after, result);
    OneMoreCopy(before, files, after, name, source, result);
  }

  /** The files of the receiving side, session by session. */
  datatype Record = Record(files: Files, session: Session, last: Text, result: Result)

  ghost predicate HappenInTurn(history: seq<Record>, name: Text, source: seq<byte>, max: nat, after: Files) {
    history != [] ==>
      var n := |history| - 1;
      var r := history[n];
      Happens(r.session, r.last, name, source, max, r.files, after, r.result) && HappenInTurn(history[..n], name, source, max, r.files)
  }

  function Before(history: seq<Record>, after: Files): Files { if history == [] then after else history[0].files }

  function Successes(history: seq<Record>): nat {
    if history == [] then 0
    else Successes(history[..|history| - 1]) + if history[|history| - 1].result == Succeeded then 1 else 0
  }

  /** Over any number of sessions, each broken off anywhere: the temporary file is always a
      prefix of the source and shrinks only by becoming a complete copy; each success adds one
      file, the source; nothing else changes. */
  lemma {:induction false} SessionsAreSafe(history: seq<Record>, name: Text, source: seq<byte>, max: nat, after: Files)
    requires HappenInTurn(history, name, source, max, after)
    requires Resumable(Before(history, after), name, source) && |source| < WORD && AnswersFit(max) && PlainName(name)
    ensures Resumable(after, name, source)
    ensures history != [] ==> SafeStep(history[|history| - 1].files, after, name, source, history[|history| - 1].result)
    ensures OnlyCopiesAdded(Before(history, after), after, name, source)
    ensures |after.Keys - {TmpName(name)}| == |Before(history, after).Keys - {TmpName(name)}| + Successes(history)
    decreases |history|
  {
    if history != [] {
      var n := |history| - 1;
      var r := history[n];
      SessionsAreSafe(history[..n], name, source, max, r.files);
      assert Before(history[..n], r.files) == Before(history, after);
      OneMoreSession(Before(history, after), r.session, r.last, name, source, max, r.files, after, r.result);
    }
  }

  // ----- uploads that are not cut

  /** Room for the whole session on both sides, and no stop before its end. */
  predicate Ample(files: Files, name: Text, source: seq<byte>, max: nat, clientStop: nat, client: Io, stop: nat, server: Io) {
    var offset := Progress(files, name);
    && offset <= |source| < WORD && AnswersFit(max)
    && |Header(name, offset, |source| - offset)| <= max && |Frame(Header(name, offset, |source| - offset))| < INT_LIMIT
    && |Frame(WAS + SEP + name)| + |Frame(Header(name, offset, |source| - offset))| + Padded(|source| - offset) <= client.room
    && |Frame(Resume(files, name))| + |Frame(BAD)| <= server.room
    && Passes(|source| - offset) <= clientStop && Passes(|source| - offset) <= stop
  }

  /** Room for the header, the blocks and an answer. */
  predicate RoomFor(header: Text, amount: nat, max: nat, room: nat, back: nat) {
    Succeeds(header, max, room) && |Frame(header)| + Padded(amount) <= room && |Frame(BAD)| <= back
  }

  lemma AmpleIsRoom(files: Files, name: Text, source: seq<byte>, max: nat, clientStop: nat, client: Io, stop: nat, server: Io, room: nat, back: nat)
    requires Ample(files, name, source, max, clientStop, client, stop, server)
    requires room == client.room - |Frame(WAS + SEP + name)| && back == server.room - |Frame(Resume(files, name))|
    ensures RoomFor(Header(name, Progress(files, name), |source| - Progress(files, name)), |source| - Progress(files, name), max, room, back)
  {}

  /** The transfer proper, with nothing before or after it. */
  lemma TransferAlone(files: Files, name: Text, source: seq<byte>, offset: nat, max: nat, senderStop: nat, sender: Io, ok: bool,
                      nameOf: Text -> Text, stop: nat, receiver: Io, after: Files, result: Result)
    requires offset <= |source| < WORD && 3 <= max && SPACE !in name
    requires RoomFor(Header(name, offset, |source| - offset), |source| - offset, max, sender.room, receiver.room)
    requires Passes(|source| - offset) <= senderStop && Passes(|source| - offset) <= stop
    requires SendFileDoes(source, name, offset, senderStop, max, sender, ok)
    requires RecvFileDoes(files, nameOf, true, stop, max, receiver, after, result)
    requires sender.input == receiver.output && receiver.input == sender.output
    ensures ok && result == Succeeded && sender.rest == [] && receiver.rest == []
    ensures Stored(files, nameOf(name), Collected(source[offset..], [], true), after, result)
  {
    Nothing(sender.output);
    Nothing(receiver.output);
    UncutTransfer(files, name, source, offset, max, senderStop, sender, ok, nameOf, stop, receiver, after, result, [], []);
  }

  lemma WasIsServed(files: Files, name: Text, max: nat, stop: nat, server: Io, after: Files, result: Result) returns (asked: Io)
    requires SPACE !in name && |WAS + SEP + name| <= max && |WAS + SEP + name| < INT_LIMIT && Frame(WAS + SEP + name) <= server.input
    requires ServeDoes(files, true, stop, max, server, after, result)
    ensures asked == server.(input := server.input[|Frame(WAS + SEP + name)|..])
    ensures RecvsRest(files, name, true, stop, max, asked, after, result)
  {
    var was := WAS + SEP + name;
    FrameArrives(was, max, server.input);
    WasIsWellFormed(files, name);
    asked := server.(input := server.input[|Frame(was)|..]);
  }

  lemma AnswerLeaves(files: Files, name: Text, max: nat, stop: nat, asked: Io, after: Files, result: Result) returns (receiver: Io)
    requires Progress(files, name) < WORD && AnswersFit(max) && |Frame(Resume(files, name))| <= asked.room
    requires RecvsRest(files, name, true, stop, max, asked, after, result)
    ensures var first := Frame(Resume(files, name)); Begins(asked, first) && receiver == After(asked, first, asked.input)
    ensures RecvFileDoes(files, BaseName, true, stop, max, receiver, after, result)
  {
    var first := Frame(Resume(files, name));
    assert |Resume(files, name)| <= 23 by { ResumeIsSane(files, name); }
    WholeFrame(Resume(files, name), max, asked.room);
    receiver := After(asked, first, asked.input);
  }

  lemma AnswerComesBack(files: Files, name: Text, last: Text, max: nat, input: seq<byte>) returns (answered: Answered)
    requires Progress(files, name) < WORD && AnswersFit(max) && Frame(Resume(files, name)) <= input
    ensures answered == Wait(input, last, max)
    ensures answered == Answered(Resume(files, name), input[|Frame(Resume(files, name))|..], true)
    ensures SaneAnswer(answered.answer) && OffsetIn(answered.answer) == Some(Progress(files, name))
  {
    ResumeIsSane(files, name);
    FrameArrives(Resume(files, name), max, input);
    answered := Wait(input, last, max);
  }

  /** The transfer proper, after "was" and its answer. */
  lemma UploadBegins(files: Files, name: Text, source: seq<byte>, max: nat, last: Text, clientStop: nat, client: Io, ok: bool,
                     stop: nat, server: Io, after: Files, result: Result) returns (sender: Io, receiver: Io)
    requires SPACE !in name && Progress(files, name) < WORD && AnswersFit(max)
    requires |WAS + SEP + name| <= max && |WAS + SEP + name| < INT_LIMIT
    requires |Frame(WAS + SEP + name)| <= client.room && |Frame(Resume(files, name))| <= server.room
    requires SendCommandDoes(source, name, last, clientStop, max, client, ok)
    requires ServeDoes(files, true, stop, max, server, after, result)
    requires client.input == server.output && server.input == client.output
    ensures sender.input == receiver.output && receiver.input == sender.output
    ensures sender.rest == client.rest && receiver.rest == server.rest
    ensures sender.room == client.room - |Frame(WAS + SEP + name)| && receiver.room == server.room - |Frame(Resume(files, name))|
    ensures SendFileDoes(source, name, Progress(files, name), clientStop, max, sender, ok)
    ensures RecvFileDoes(files, BaseName, true, stop, max, receiver, after, result)
  {
    var was, w, first := WAS + SEP + name, Frame(WAS + SEP + name), Frame(Resume(files, name));
    WasLeavesFirst(source, name, last, clientStop, max, client, ok);
    var asked := WasIsServed(files, name, max, stop, server, after, result);
    receiver := AnswerLeaves(files, name, max, stop, asked, after, result);
    var answered := AnswerComesBack(files, name, last, max, client.input);
    assert Sent(was, max, client.room) == w;
    sender := Then(client, w, answered);
  }

  /** Header and request of a name are about as long. */
  lemma RequestIsShorter(name: Text, offset: nat, remaining: nat)
    ensures |WAS + SEP + name| <= |Header(name, offset, remaining)|
  {}

  lemma AmpleForWas(files: Files, name: Text, source: seq<byte>, max: nat, clientStop: nat, client: Io, stop: nat, server: Io)
    requires Ample(files, name, source, max, clientStop, client, stop, server)
    ensures var was := WAS + SEP + name; |was| <= max && |was| < INT_LIMIT && |Frame(was)| <= client.room
    ensures |Frame(Resume(files, name))| <= server.room
  {
    RequestIsShorter(name, Progress(files, name), |source| - Progress(files, name));
  }

  lemma UncutUpload(files: Files, name: Text, source: seq<byte>, max: nat, last: Text, clientStop: nat, client: Io, ok: bool,
                    stop: nat, server: Io, after: Files, result: Result)
    requires SPACE !in name && Ample(files, name, source, max, clientStop, client, stop, server)
    requires SendCommandDoes(source, name, last, clientStop, max, client, ok)
    requires ServeDoes(files, true, stop, max, server, after, result)
    requires client.input == server.output && server.input == client.output
    ensures ok && result == Succeeded && client.rest == [] && server.rest == []
    ensures Stored(files, BaseName(name), Collected(source[Progress(files, name)..], [], true), after, result)
  {
    AmpleForWas(files, name, source, max, clientStop, client, stop, server);
    var sender, receiver := UploadBegins(files, name, source, max, last, clientStop, client, ok, stop, server, after, result);
    AmpleIsRoom(files, name, source, max, clientStop, client, stop, server, sender.room, receiver.room);
    TransferAlone(files, name, source, Progress(files, name), max, clientStop, sender, ok, BaseName, stop, receiver, after, result);
  }

  /** From whatever the sessions before left, a session that is not cut leaves exactly the
      source and nothing unread on either side. */
  lemma UploadCompletes(files: Files, name: Text, source: seq<byte>, max: nat, last: Text, clientStop: nat, client: Io, ok: bool,
                        stop: nat, server: Io, after: Files, result: Result)
    requires PlainName(name) && Resumable(files, name, source) && Ample(files, name, source, max, clientStop, client, stop, server)
    requires SendCommandDoes(source, name, last, clientStop, max, client, ok)
    requires ServeDoes(files, true, stop, max, server, after, result)
    requires client.input == server.output && server.input == client.output
    ensures ok && result == Succeeded && client.rest == [] && server.rest == []
    ensures SafeStep(files, after, name, source, Succeeded)
  {
    UncutUpload(files, name, source, max, last, clientStop, client, ok, stop, server, after, result);
    UploadIsSafe(files, name, source, max, last, clientStop, client, ok, true, stop, server, after, result);
  }

  /** What a session for `name` appends to. */
  function Existing(files: Files, name: Text): seq<byte> {
    if TmpName(name) in files then files[TmpName(name)] else []
  }

  /** Some file that was not there holds the source. */
  ghost predicate LeavesCopy(files: Files, after: Files, source: seq<byte>) {
    exists free :: free !in files && free in after && after[free] == source
  }

  /** A finished session adds one file: what was there, and the source from the offset on. */
  lemma OneFileAdded(files: Files, name: Text, written: seq<byte>, after: Files, result: Result) returns (free: Text)
    requires Stored(files, name, Collected(written, [], true), after, result)
    ensures free !in files && free in after && after[free] == Existing(files, name) + written
    ensures forall x | x in after && x !in files :: x == free
  {
    var tmp := TmpName(name);
    var grown := Grown(files, tmp, written);
    free :| IsFreeName(grown, name, free) && after == (grown - {tmp})[free := grown[tmp]];
  }

  lemma StoredIsExactWhen(files: Files, name: Text, source: seq<byte>, offset: nat, after: Files, result: Result)
    requires offset <= |source|
    requires Stored(files, name, Collected(source[offset..], [], true), after, result)
    ensures LeavesCopy(files, after, source) <==> Existing(files, name) == source[..offset]
  {
    var free := OneFileAdded(files, name, source[offset..], after, result);
    var part := Existing(files, name);
    assert source == source[..offset] + source[offset..];
    if part + source[offset..] == source {
      assert part == source[..|part|];
    }
  }

  /** An upload that is not cut always succeeds.  It leaves a copy exactly when what it appends
      to, under the base name, is the part of the source that "was" has measured, under the
      whole name. */
  lemma UploadIsExactWhen(files: Files, name: Text, source: seq<byte>, max: nat, last: Text, clientStop: nat, client: Io, ok: bool,
                          stop: nat, server: Io, after: Files, result: Result)
    requires SPACE !in name && Ample(files, name, source, max, clientStop, client, stop, server)
    requires SendCommandDoes(source, name, last, clientStop, max, client, ok)
    requires ServeDoes(files, true, stop, max, server, after, result)
    requires client.input == server.output && server.input == client.output
    ensures ok && result == Succeeded && client.rest == [] && server.rest == []
    ensures LeavesCopy(files, after, source) <==> Existing(files, BaseName(name)) == source[..Progress(files, name)]
  {
    UncutUpload(files, name, source, max, last, clientStop, client, ok, stop, server, after, result);
    StoredIsExactWhen(files, BaseName(name), source, Progress(files, name), after, result);
  }

  /** With a slash in the name, "was" looks for the temporary file under the whole path while
      receiving appends to the one under the base name: what a cut session left there is not
      found, and the finished file holds it before the source. */
  lemma SlashedNamesDoNotResume(files: Files, name: Text, source: seq<byte>, max: nat, last: Text, clientStop: nat, client: Io, ok: bool,
                                stop: nat, server: Io, after: Files, result: Result)
    requires SPACE !in name && SLASH in name && Ample(files, name, source, max, clientStop, client, stop, server)
    requires TmpName(name) !in files
    requires SendCommandDoes(source, name, last, clientStop, max, client, ok)
    requires ServeDoes(files, true, stop, max, server, after, result)
    requires client.input == server.output && server.input == client.output
    ensures ok && result == Succeeded
    ensures LeavesCopy(files, after, source) <==> Existing(files, BaseName(name)) == []
  {
    UploadIsExactWhen(files, name, source, max, last, clientStop, client, ok, stop, server, after, result);
  }

  // ----- downloads that are not cut

  predicate AmpleDownload(files: Files, name: Text, source: seq<byte>, max: nat, stop: nat, client: Io, serverStop: nat, server: Io) {
    var offset := Progress(files, name);
    && offset <= |source| < WORD && AnswersFit(max)
    && |Header(name, offset, |source| - offset)| <= max && |Frame(Header(name, offset, |source| - offset))| < INT_LIMIT
    && |Request(files, name)| <= max && |Request(files, name)| < INT_LIMIT
    && |Frame(OK)| + |Frame(Header(name, offset, |source| - offset))| + Padded(|source| - offset) <= server.room
    && |Frame(Request(files, name))| + |Frame(BAD)| <= client.room
    && Passes(|source| - offset) <= serverStop && Passes(|source| - offset) <= stop
  }

  lemma OkComesBack(files: Files, name: Text, last: Text, stop: nat, max: nat, client: Io, after: Files, result: Result) returns (receiver: Io)
    requires AnswersFit(max) && Leaves(Request(files, name), max, client.room) && Frame(OK) <= client.input
    requires GetCommandDoes(files, name, last, true, stop, max, client, after, result)
    ensures var w, answered := Frame(Request(files, name)), Wait(client.input, last, max);
            && answered == Answered(OK, client.input[|Frame(OK)|..], true)
            && Begins(client, w) && receiver == Then(client, w, answered)
    ensures RecvFileDoes(files, BaseName, true, stop, max, receiver, after, result)
  {
    FrameArrives(OK, max, client.input);
    WholeFrame(Request(files, name), max, client.room);
    receiver := Then(client, Frame(Request(files, name)), Wait(client.input, last, max));
  }

  /** The transfer proper, after the request and its "ok". */
  lemma DownloadBegins(files: Files, name: Text, source: seq<byte>, max: nat, last: Text, stop: nat, client: Io, after: Files, result: Result,
                       serverFiles: Files, serverStop: nat, server: Io, serverResult: Result) returns (sender: Io, receiver: Io)
    requires SPACE !in name && Progress(files, name) < WORD && AnswersFit(max)
    requires |Request(files, name)| <= max && |Request(files, name)| < INT_LIMIT
    requires |Frame(Request(files, name))| <= client.room && |Frame(OK)| <= server.room
    requires name in serverFiles && serverFiles[name] == source
    requires GetCommandDoes(files, name, last, true, stop, max, client, after, result)
    requires ServeDoes(serverFiles, true, serverStop, max, server, serverFiles, serverResult)
    requires client.input == server.output && server.input == client.output
    ensures sender.input == receiver.output && receiver.input == sender.output
    ensures sender.rest == server.rest && receiver.rest == client.rest
    ensures sender.room == server.room - |Frame(OK)| && receiver.room == client.room - |Frame(Request(files, name))|
    ensures SendFileDoes(source, name, Progress(files, name), serverStop, max, sender, serverResult == Succeeded)
    ensures RecvFileDoes(files, BaseName, true, stop, max, receiver, after, result)
  {
    var request := Request(files, name);
    RequestLeavesFirst(files, name, last, true, stop, max, client, after, result);
    RequestIsServed(files, name, last, true, stop, max, client, after, result, serverFiles, true, serverStop, server, serverFiles, serverResult);
    var asked := server.(input := server.input[|Frame(request)|..]);
    WholeFrame(OK, max, server.room);
    sender := After(asked, Frame(OK), asked.input);
    receiver := OkComesBack(files, name, last, stop, max, client, after, result);
  }

  lemma AmpleDownloadIsRoom(files: Files, name: Text, source: seq<byte>, max: nat, stop: nat, client: Io, serverStop: nat, server: Io, room: nat,
                            back: nat)
    requires AmpleDownload(files, name, source, max, stop, client, serverStop, server)
    requires room == server.room - |Frame(OK)| && back == client.room - |Frame(Request(files, name))|
    ensures RoomFor(Header(name, Progress(files, name), |source| - Progress(files, name)), |source| - Progress(files, name), max, room, back)
  {}

  lemma AmpleForRequest(files: Files, name: Text, source: seq<byte>, max: nat, stop: nat, client: Io, serverStop: nat, server: Io)
    requires AmpleDownload(files, name, source, max, stop, client, serverStop, server)
    ensures Progress(files, name) <= |source| < WORD && AnswersFit(max)
    ensures |Request(files, name)| <= max && |Request(files, name)| < INT_LIMIT
    ensures |Frame(Request(files, name))| <= client.room && |Frame(OK)| <= server.room
    ensures Passes(|source| - Progress(files, name)) <= serverStop && Passes(|source| - Progress(files, name)) <= stop
  {}

  lemma UncutDownload(files: Files, name: Text, source: seq<byte>, max: nat, last: Text, stop: nat, client: Io, after: Files, result: Result,
                      serverFiles: Files, serverStop: nat, server: Io, serverResult: Result)
    requires SPACE !in name && AmpleDownload(files, name, source, max, stop, client, serverStop, server)
    requires name in serverFiles && serverFiles[name] == source
    requires GetCommandDoes(files, name, last, true, stop, max, client, after, result)
    requires ServeDoes(serverFiles, true, serverStop, max, server, serverFiles, serverResult)
    requires client.input == server.output && server.input == client.output
    ensures result == Succeeded && serverResult == Succeeded && client.rest == [] && server.rest == []
    ensures Stored(files, BaseName(name), Collected(source[Progress(files, name)..], [], true), after, result)
  {
    AmpleForRequest(files, name, source, max, stop, client, serverStop, server);
    var sender, receiver := DownloadBegins(files, name, source, max, last, stop, client, after, result, serverFiles, serverStop, server, serverResult);
    AmpleDownloadIsRoom(files, name, source, max, stop, client, serverStop, server, sender.room, receiver.room);
    TransferAlone(files, name, source, Progress(files, name), max, serverStop, sender, serverResult == Succeeded, BaseName, stop, receiver,
                  after, result);
  }

  /** The same for a download: whatever was there before, the client ends with exactly the
      source and nothing is left unread. */
  lemma DownloadCompletes(files: Files, name: Text, source: seq<byte>, max: nat, last: Text, stop: nat, client: Io, after: Files, result: Result,
                          serverFiles: Files, serverStop: nat, server: Io, serverResult: Result)
    requires PlainName(name) && Resumable(files, name, source)
    requires AmpleDownload(files, name, source, max, stop, client, serverStop, server)
    requires name in serverFiles && serverFiles[name] == source
    requires GetCommandDoes(files, name, last, true, stop, max, client, after, result)
    requires ServeDoes(serverFiles, true, serverStop, max, server, serverFiles, serverResult)
    requires client.input == server.output && server.input == client.output
    ensures result == Succeeded && serverResult == Succeeded && client.rest == [] && server.rest == []
    ensures SafeStep(files, after, name, source, Succeeded)
  {
    UncutDownload(files, name, source, max, last, stop, client, after, result, serverFiles, serverStop, server, serverResult);
    DownloadIsSafe(files, name, source, max, last, true, stop, client, after, result,
                   serverFiles, true, serverStop, server, serverFiles, serverResult);
  }

  /** A file that the server does not have: it says so, nothing changes and nothing is left unread. */
  lemma MissingFile(files: Files, name: Text, max: nat, last: Text, canOpen: bool, stop: nat, client: Io, after: Files, result: Result,
                    serverFiles: Files, serverStop: nat, server: Io, serverResult: Result)
    requires SPACE !in name && Progress(files, name) < WORD && AnswersFit(max)
    requires |Request(files, name)| <= max && |Request(files, name)| < INT_LIMIT
    requires |Frame(Request(files, name))| <= client.room && |Frame(BAD)| <= server.room
    requires name !in serverFiles
    requires GetCommandDoes(files, name, last, canOpen, stop, max, client, after, result)
    requires ServeDoes(serverFiles, true, serverStop, max, server, serverFiles, serverResult)
    requires client.input == server.output && server.input == client.output
    ensures result == Failed && serverResult == Failed && after == files && client.rest == [] && server.rest == []
    ensures server.output == Frame(BAD) && client.output == Frame(Request(files, name))
  {
    var request := Request(files, name);
    RequestLeavesFirst(files, name, last, canOpen, stop, max, client, after, result);
    RequestIsServed(files, name, last, canOpen, stop, max, client, after, result, serverFiles, true, serverStop, server, serverFiles, serverResult);
    AnswerFits(BAD, max, server.room);
    assert server.output == Frame(BAD);
    FrameIsReceived(BAD, [], max);
    Nothing(Frame(BAD));
    assert Wait(client.input, last, max) == Answered(BAD, [], true);
    WholeFrame(request, max, client.room);
    WithoutOk(files, name, last, canOpen, stop, max, client, after, result);
    assert server.input[|Frame(request)|..] == [];
  }

  /** The same holds of a download: the client asks from the length of the temporary file under
      the whole name and appends to the one under the base name. */
  lemma DownloadIsExactWhen(files: Files, name: Text, source: seq<byte>, max: nat, last: Text, stop: nat, client: Io, after: Files, result: Result,
                            serverFiles: Files, serverStop: nat, server: Io, serverResult: Result)
    requires SPACE !in name && AmpleDownload(files, name, source, max, stop, client, serverStop, server)
    requires name in serverFiles && serverFiles[name] == source
    requires GetCommandDoes(files, name, last, true, stop, max, client, after, result)
    requires ServeDoes(serverFiles, true, serverStop, max, server, serverFiles, serverResult)
    requires client.input == server.output && server.input == client.output
    ensures result == Succeeded && serverResult == Succeeded && client.rest == [] && server.rest == []
    ensures LeavesCopy(files, after, source) <==> Existing(files, BaseName(name)) == source[..Progress(files, name)]
  {
    UncutDownload(files, name, source, max, last, stop, client, after, result, serverFiles, serverStop, server, serverResult);
    StoredIsExactWhen(files, BaseName(name), source, Progress(files, name), after, result);
  }
}
