/** The body of a transfer: whole blocks of 4096 bytes, the last one padded with whatever the
    sender's buffer held.  The sender counts up to the size of the file from its offset, the
    receiver up to the amount that is left from zero. */
module FileBlocks {
  import opened Sequences
  import opened Sockets
  import opened Framing
  import opened FileNames

  const BLOCK: nat := 4096

  // ----- arithmetic

  /** Passes of the sender's loop when `sent` bytes of the file are behind it. */
  function SenderPasses(size: nat, sent: nat): nat
    decreases size - sent
  {
    if size < BLOCK || sent >= size - BLOCK then 0 else 1 + SenderPasses(size, sent + BLOCK)
  }

  /** Passes of the receiver's loop when `received` bytes of this session are written. */
  function ReceiverPasses(amount: nat, received: nat): nat
    decreases amount - received
  {
    if amount < BLOCK || received >= amount - BLOCK then 0 else 1 + ReceiverPasses(amount, received + BLOCK)
  }

  /** An unsigned 64-bit difference. */
  function Remaining(size: nat, offset: nat): nat { (size - offset) % WORD }

  /** Whole blocks before the last. */
  function Passes(amount: nat): nat { if amount == 0 then 0 else (amount - 1) / BLOCK }

  function Padded(amount: nat): nat { BLOCK * (Passes(amount) + 1) }

  lemma {:induction false} SenderPassesAre(size: nat, sent: nat)
    ensures SenderPasses(size, sent) == Passes(if sent <= size then size - sent else 0)
    decreases size - sent
  {
    if size >= BLOCK && sent < size - BLOCK { SenderPassesAre(size, sent + BLOCK); }
  }

  lemma {:induction false} ReceiverPassesAre(amount: nat, received: nat)
    requires received <= amount
    ensures ReceiverPasses(amount, received) == Passes(amount - received)
    decreases amount - received
  {
    if amount >= BLOCK && received < amount - BLOCK { ReceiverPassesAre(amount, received + BLOCK); }
  }

  lemma NoWrap(size: nat, offset: nat, amount: nat)
    requires size == offset + amount && size < WORD
    ensures Remaining(size, offset) == amount
  {}

  /** Both sides run the same number of passes exactly when the offset lies in the file, or the
      difference wraps around to at most a block. */
  lemma BlocksAgree(size: nat, offset: nat)
    requires size < WORD && offset < WORD
    ensures SenderPasses(size, offset) == ReceiverPasses(Remaining(size, offset), 0) <==>
            offset <= size || Remaining(size, offset) <= BLOCK
    ensures Remaining(size, offset) == size - offset <==> offset <= size
  {
    SenderPassesAre(size, offset);
    ReceiverPassesAre(Remaining(size, offset), 0);
    if offset <= size {
      assert Remaining(size, offset) == size - offset;
    } else {
      assert Remaining(size, offset) == size - offset + WORD;
    }
  }

  /** The last write takes from nothing to a whole block. */
  lemma LastWriteFits(amount: nat)
    ensures 0 <= amount - BLOCK * ReceiverPasses(amount, 0) <= BLOCK
    ensures amount - BLOCK * ReceiverPasses(amount, 0) == 0 <==> amount == 0
  {
    ReceiverPassesAre(amount, 0);
  }

  lemma PaddedAmount(amount: nat)
    ensures amount <= Padded(amount)
    ensures amount > BLOCK ==> Passes(amount) == Passes(amount - BLOCK) + 1 && Padded(amount) == Padded(amount - BLOCK) + BLOCK
    ensures amount <= BLOCK ==> Passes(amount) == 0 && Padded(amount) == BLOCK
  {}

  /** The least number of whole blocks, at least one, that holds the amount. */
  lemma PaddedIsLeast(amount: nat, blocks: nat)
    requires blocks > 0
    ensures amount <= BLOCK * blocks <==> Padded(amount) <= BLOCK * blocks
  {}

  /** The loop has more than `k` passes. */
  lemma MorePasses(amount: nat, k: nat)
    ensures k < Passes(amount) <==> BLOCK * (k + 1) < amount
  {}

  // ----- sending

  function Left(content: seq<byte>, offset: nat): seq<byte> {
    if offset <= |content| then content[offset..] else []
  }

  /** `t` is the content as far as both go; what follows the content is padding. */
  ghost predicate Agrees(t: seq<byte>, content: seq<byte>) {
    forall i | 0 <= i < |t| && i < |content| :: t[i] == content[i]
  }

  /** read: fills the buffer as far as the file goes and leaves the rest as it was. */
  method Read(content: seq<byte>, pos: nat, buf: array<byte>) returns (after: nat)
    modifies buf
    ensures after >= pos && Agrees(buf[..], Left(content, pos))
    ensures pos + buf.Length <= |content| ==> after == pos + buf.Length
  {
    after := pos;
    for i := 0 to buf.Length
      invariant pos <= after
      invariant forall k | 0 <= k < i && pos + k < |content| :: buf[k] == content[pos + k]
      invariant pos + i <= |content| ==> after == pos + i
    {
      if pos + i < |content| {
        buf[i] := content[pos + i];
        after := after + 1;
      }
    }
  }

  lemma Appended(before: seq<byte>, t: seq<byte>, block: seq<byte>, content: seq<byte>, offset: nat)
    requires Agrees(t, Left(content, offset)) && Agrees(block, Left(content, offset + |t|))
    ensures before + t + block == before + (t + block)
    ensures Agrees(t + block, Left(content, offset))
  {
    forall i | 0 <= i < |t + block| && i < |Left(content, offset)| ensures (t + block)[i] == Left(content, offset)[i] {
      if i >= |t| { assert Left(content, offset)[i] == content[offset + i] == Left(content, offset + |t|)[i - |t|]; }
    }
  }

  lemma AgreesUpTo(t: seq<byte>, content: seq<byte>, n: nat)
    requires Agrees(t, content) && n <= |t|
    ensures Agrees(t[..n], content)
  {}

  /** Read a block and send it.  `t` is what was sent of the file so far, at `pos` of it. */
  method SendBlock(sock: Socket, content: seq<byte>, offset: nat, pos: nat, messageBuf: array<byte>, ghost before: seq<byte>, ghost t: seq<byte>)
    returns (sentBytes: nat, after: nat, ghost t': seq<byte>)
    requires messageBuf.Length == BLOCK && pos == offset + |t| && Agrees(t, Left(content, offset))
    requires sock.outgoing == before + t
    modifies sock`outgoing, sock`room, messageBuf
    ensures sock.outgoing == before + t' && |t'| == |t| + sentBytes && Agrees(t', Left(content, offset))
    ensures sentBytes == Fits(BLOCK, old(sock.room)) && sock.room == old(sock.room) - sentBytes
    ensures after >= pos && (pos + BLOCK <= |content| ==> after == pos + BLOCK)
  {
    after := Read(content, pos, messageBuf);
    ghost var block := messageBuf[..];
    sentBytes := sock.Send(messageBuf[..]);
    AgreesUpTo(block, Left(content, pos), sentBytes);
    Appended(before, t, block[..sentBytes], content, offset);
    t' := t + block[..sentBytes];
  }

  /** The sender's loop and the block after it.  The flag is seen set before pass `stopAfter`,
      counted from zero, if the loop has that pass. */
  method SendBlocks(sock: Socket, content: seq<byte>, offset: nat, stopAfter: nat) returns (ok: bool, ghost t: seq<byte>)
    modifies sock`outgoing, sock`room
    ensures sock.outgoing == old(sock.outgoing) + t && sock.room == old(sock.room) - |t|
    ensures Agrees(t, Left(content, offset))
    // it has, and the blocks before it are all that leaves
    ensures BLOCK * (stopAfter + 1) < |Left(content, offset)| ==> !ok && |t| == Fits(BLOCK * stopAfter, old(sock.room))
    // it has not, and the flag makes no difference
    ensures |Left(content, offset)| <= BLOCK * (stopAfter + 1) ==>
              && |t| == Fits(Padded(|Left(content, offset)|), old(sock.room))
              && (ok <==> Padded(|Left(content, offset)|) <= old(sock.room))
  {
    var messageBuf := new byte[BLOCK];
    var pos, sent, polls := offset, offset, 0;
    ghost var n := |Left(content, offset)|;
    t := [];
    SenderPassesAre(|content|, offset);
    MorePasses(n, stopAfter);
    Nothing(sock.outgoing);
    var sentBytes;
    if |content| >= BLOCK {
      while sent < |content| - BLOCK
        invariant pos == sent == offset + BLOCK * polls && polls <= stopAfter
        invariant SenderPasses(|content|, sent) == Passes(n) - polls
        invariant sock.outgoing == old(sock.outgoing) + t && sock.room == old(sock.room) - |t|
        invariant |t| == BLOCK * polls && Agrees(t, Left(content, offset))
      {
        if polls >= stopAfter { return false, t; }
        polls := polls + 1;
        sentBytes, pos, t := SendBlock(sock, content, offset, pos, messageBuf, old(sock.outgoing), t);
        if sentBytes != BLOCK { return false, t; }
        sent := sent + sentBytes;
      }
    }
    sentBytes, pos, t := SendBlock(sock, content, offset, pos, messageBuf, old(sock.outgoing), t);
    ok := sentBytes == BLOCK;
  }

  // ----- receiving

  class Disk {
    var files: Files

    constructor (files: Files)
      ensures this.files == files
    {
      this.files := files;
    }

    /** What a stream opened for appending writes. */
    method Append(name: Text, bytes: seq<byte>)
      requires name in files
      modifies this
      ensures files == old(files)[name := old(files)[name] + bytes]
    {
      files := files[name := files[name] + bytes];
    }
  }

  datatype Collected = Collected(written: seq<byte>, rest: seq<byte>, done: bool)

  /** What becomes of a stream of blocks of which `amount` bytes are wanted: what is written to
      the file, what stays in the stream, and whether all was there. */
  function Collect(s: seq<byte>, amount: nat, polls: nat): Collected
    decreases amount
  {
    if amount <= BLOCK then
      if |s| < BLOCK then Collected([], [], false) else Collected(s[..amount], s[BLOCK..], true)
    else if polls == 0 then Collected([], s, false)
    else if |s| < BLOCK then Collected([], [], false)
    else
      var later := Collect(s[BLOCK..], amount - BLOCK, polls - 1);
      Collected(s[..BLOCK] + later.written, later.rest, later.done)
  }

  lemma GrownFile(files: Files, name: Text, w: seq<byte>, block: seq<byte>)
    requires name in files
    ensures files[name := files[name] + []] == files
    ensures var grown := files[name := files[name] + w];
            grown[name := grown[name] + block] == files[name := files[name] + (w + block)]
  {
    assert files[name] + [] == files[name];
    assert (files[name] + w) + block == files[name] + (w + block);
  }

  /** What was collected, with `w` written before. */
  function Prepend(w: seq<byte>, c: Collected): Collected { Collected(w + c.written, c.rest, c.done) }

  lemma CollectMore(w: seq<byte>, block: seq<byte>, rest: seq<byte>, amount: nat, polls: nat)
    requires amount > BLOCK && polls > 0 && |block| == BLOCK
    ensures Prepend(w, Collect(block + rest, amount, polls)) == Prepend(w + block, Collect(rest, amount - BLOCK, polls - 1))
  {
    assert (block + rest)[..BLOCK] == block && (block + rest)[BLOCK..] == rest;
    Assoc(w, block, Collect(rest, amount - BLOCK, polls - 1).written);
  }

  /** The block after the receiver's loop. */
  method RecvLast(sock: Socket, disk: Disk, name: Text, amount: nat, ghost polls: nat) returns (ok: bool)
    requires name in disk.files && amount <= BLOCK
    modifies sock`incoming, disk
    ensures var c := Collect(old(sock.incoming), amount, polls);
            disk.files == old(disk.files)[name := old(disk.files)[name] + c.written] && sock.incoming == c.rest && ok == c.done
  {
    ghost var s := sock.incoming;
    GrownFile(disk.files, name, [], []);
    var messageBuf := sock.Recv(BLOCK);
    if |messageBuf| != BLOCK { return false; }
    assert messageBuf[..amount] == s[..amount] && sock.incoming == s[BLOCK..];
    disk.Append(name, messageBuf[..amount]);
    ok := true;
  }

  /** One pass of the loop: a whole block, or the end. */
  method RecvBlock(sock: Socket, disk: Disk, name: Text) returns (ok: bool, ghost block: seq<byte>)
    requires name in disk.files
    modifies sock`incoming, disk
    ensures ok <==> |old(sock.incoming)| >= BLOCK
    ensures !ok ==> sock.incoming == [] && disk.files == old(disk.files)
    ensures ok ==> |block| == BLOCK && old(sock.incoming) == block + sock.incoming
    ensures ok ==> disk.files == old(disk.files)[name := old(disk.files)[name] + block]
  {
    ghost var s := sock.incoming;
    var messageBuf := sock.Recv(BLOCK);
    block := messageBuf;
    if |messageBuf| != BLOCK { return false, block; }
    assert s == s[..BLOCK] + s[BLOCK..];
    disk.Append(name, messageBuf);
    ok := true;
  }

  /** The receiver's loop and the block after it. */
  method RecvBlocks(sock: Socket, disk: Disk, name: Text, amount: nat, stopAfter: nat) returns (ok: bool)
    requires name in disk.files
    modifies sock`incoming, disk
    ensures var c := Collect(old(sock.incoming), amount, stopAfter);
            disk.files == old(disk.files)[name := old(disk.files)[name] + c.written] && sock.incoming == c.rest && ok == c.done
  {
    var received, polls := 0, 0;
    ghost var files, w := disk.files, [];
    ghost var c := Collect(sock.incoming, amount, stopAfter);
    GrownFile(files, name, [], []);
    if amount >= BLOCK {
      while received < amount - BLOCK
        invariant received <= amount && polls <= stopAfter
        invariant name in disk.files && disk.files == files[name := files[name] + w]
        invariant c == Prepend(w, Collect(sock.incoming, amount - received, stopAfter - polls))
      {
        Nothing(w);
        if polls >= stopAfter { return false; }
        ghost var block;
        var whole;
        whole, block := RecvBlock(sock, disk, name);
        if !whole { return false; }
        CollectMore(w, block, sock.incoming, amount - received, stopAfter - polls);
        GrownFile(files, name, w, block);
        w := w + block;
        received, polls := received + BLOCK, polls + 1;
      }
    }
    ghost var last := Collect(sock.incoming, amount - received, stopAfter - polls);
    ok := RecvLast(sock, disk, name, amount - received, stopAfter - polls);
    GrownFile(files, name, w, last.written);
  }

  /** The written bytes are the stream's first, no more than were wanted, and all of them
      exactly when the stream held every block and the flag was not seen set before. */
  lemma {:induction false} CollectedIsAPrefix(s: seq<byte>, amount: nat, polls: nat)
    ensures var c := Collect(s, amount, polls);
            && c.written <= s && |c.written| <= amount
            && (c.done <==> Passes(amount) <= polls && Padded(amount) <= |s|)
            && (c.done ==> |c.written| == amount && c.rest == s[Padded(amount)..])
    decreases amount
  {
    PaddedAmount(amount);
    if amount > BLOCK && polls > 0 && |s| >= BLOCK {
      CollectedIsAPrefix(s[BLOCK..], amount - BLOCK, polls - 1);
    }
  }

  /** The flag is seen set before a pass of the receiver's loop: the blocks before it are written,
      the others stay in the stream. */
  lemma {:induction false} CollectedUntilStopped(s: seq<byte>, amount: nat, polls: nat)
    requires BLOCK * (polls + 1) < amount && BLOCK * polls <= |s|
    ensures Collect(s, amount, polls) == Collected(s[..BLOCK * polls], s[BLOCK * polls..], false)
    decreases polls
  {
    if polls > 0 {
      CollectedUntilStopped(s[BLOCK..], amount - BLOCK, polls - 1);
      assert s[..BLOCK] + s[BLOCK..][..BLOCK * (polls - 1)] == s[..BLOCK * polls];
      assert s[BLOCK..][BLOCK * (polls - 1)..] == s[BLOCK * polls..];
    }
  }

  /** The stream ends first: its whole blocks are written, and nothing stays in it. */
  lemma {:induction false} CollectedUntilCut(s: seq<byte>, amount: nat, polls: nat)
    requires |s| < Padded(amount) && (amount <= BLOCK * (polls + 1) || |s| < BLOCK * polls)
    ensures Collect(s, amount, polls) == Collected(s[..BLOCK * (|s| / BLOCK)], [], false)
    decreases amount
  {
    PaddedAmount(amount);
    if |s| >= BLOCK {
      CollectedUntilCut(s[BLOCK..], amount - BLOCK, polls - 1);
      OneBlockLess(|s|);
      assert s[..BLOCK] + s[BLOCK..][..BLOCK * (|s[BLOCK..]| / BLOCK)] == s[..BLOCK * (|s| / BLOCK)];
    }
  }

  lemma OneBlockLess(n: nat)
    requires n >= BLOCK
    ensures (n - BLOCK) / BLOCK == n / BLOCK - 1 && BLOCK * (n / BLOCK) <= n
  {}
}
