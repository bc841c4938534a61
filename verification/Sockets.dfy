/** A connected TCP socket, seen from one end.

    `incoming` is what will ever arrive, `room` how many bytes the other side will still take
    before the connection breaks.  Cutting either anywhere models a lost connection. */
module Sockets {
  type byte = x: int | 0 <= x < 256

  /** A byte string, as the library's strings are. */
  type Text = seq<byte>

  /** Sizes and numbers are 64 bits wide. */
  const WORD: nat := 0x1_0000_0000_0000_0000

  class Socket {
    var incoming: seq<byte>
    var outgoing: seq<byte>
    var room: nat
    var isClosed: bool

    constructor (incoming: seq<byte>, room: nat)
      ensures this.incoming == incoming && this.room == room && outgoing == [] && !isClosed
    {
      this.incoming, this.room, outgoing, isClosed := incoming, room, [], false;
    }

    /** send: as much as the connection takes. */
    method Send(bytes: seq<byte>) returns (sent: nat)
      modifies this`outgoing, this`room
      ensures sent == if |bytes| <= old(room) then |bytes| else old(room)
      ensures outgoing == old(outgoing) + bytes[..sent] && room == old(room) - sent
    {
      sent := if |bytes| <= room then |bytes| else room;
      outgoing := outgoing + bytes[..sent];
      room := room - sent;
    }

    /** recv with MSG_WAITALL: the bytes asked for, or all there will ever be. */
    method Recv(amount: nat) returns (bytes: seq<byte>)
      modifies this`incoming
      ensures |bytes| == if amount <= |old(incoming)| then amount else |old(incoming)|
      ensures old(incoming) == bytes + incoming
    {
      var n := if amount <= |incoming| then amount else |incoming|;
      bytes := incoming[..n];
      incoming := incoming[n..];
    }

    /** Nothing goes in or out any more. */
    method Close()
      modifies this`isClosed, this`incoming, this`room
      ensures isClosed && incoming == [] && room == 0
    {
      isClosed, incoming, room := true, [], 0;
    }
  }
}
