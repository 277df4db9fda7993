/** The event handler's read loop and write-drain loop over one connection
    (server/base/tcp_connection_manager.cpp, server/water/net/buffered_connection.cpp). */
module TcpConnections {
  import opened Bytes
  import opened ConnectionBuffers
  import opened TcpPackets

  datatype RecvResult = Closed | WouldBlock | Received(data: seq<byte>)

  /** A non-blocking stream socket.  How much one call transfers is up to the system. */
  class Socket {
    var incoming: seq<byte>  // sent by the peer, not yet received
    var sent: seq<byte>
    var recvs: nat  // calls of recv and send so far
    var sends: nat
    var closes: nat  // how many of the calls of recv answered that the peer has closed
    var busy: bool  // the last call of send did not take all it was given

    constructor (incoming: seq<byte>)
      ensures this.incoming == incoming && sent == []
    {
      this.incoming := incoming;
      sent, recvs, sends, closes, busy := [], 0, 0, 0, false;
    }

    method Recv(room: nat) returns (r: RecvResult)
      requires room > 0
      modifies `incoming, `recvs, `closes
      ensures recvs == old(recvs) + 1 && closes == old(closes) + if r.Closed? then 1 else 0
      ensures match r
        case Received(data) => 0 < |data| <= room && old(incoming) == data + incoming
        case _ => incoming == old(incoming)
    {
      recvs := recvs + 1;
      if * {
        closes := closes + 1;
        return Closed;
      }
      if incoming == [] { return WouldBlock; }
      if * { return WouldBlock; }
      var n := 1;
      while n < room && n < |incoming|
        invariant 1 <= n <= room && n <= |incoming|
      {
        if * { break; }
        n := n + 1;
      }
      r := Received(incoming[..n]);
      incoming := incoming[n..];
    }

    /** -1 when the socket is busy, else the number of bytes accepted. */
    method Send(data: seq<byte>) returns (n: int)
      modifies `sent, `sends, `busy
      ensures -1 <= n <= |data| && sends == old(sends) + 1 && (busy <==> n < |data|)
      ensures sent == old(sent) + (if n >= 0 then data[..n] else [])
    {
      sends := sends + 1;
      if * {
        busy := true;
        return -1;
      }
      n := 0;
      while n < |data|
        invariant 0 <= n <= |data|
      {
        if * { break; }
        n := n + 1;
      }
      sent := sent + data[..n];
      busy := n < |data|;
    }
  }

  class Connection {
    const socket: Socket
    const recvBuf: ConnectionBuffer
    const sendBuf: ConnectionBuffer
    var recvPacket: Packet
    var delivered: seq<seq<byte>>  // packets handed to the receive queue
    var sendQueue: seq<Packet>
    var writeInterest: bool

    ghost predicate Valid()
      reads this, recvBuf, sendBuf
    {
      && recvBuf.Valid() && sendBuf.Valid() && recvBuf != sendBuf && recvBuf.buf != sendBuf.buf
      && sendBuf.buf.Length > 0
      && (forall i, j | 0 <= i < j < |sendQueue| :: sendQueue[i] != sendQueue[j])
      && recvPacket !in sendQueue
    }

    constructor (socket: Socket, sizeLimit: nat)
      requires sizeLimit > 0
      ensures Valid() && this.socket == socket && fresh({recvBuf, sendBuf, recvPacket})
      ensures recvBuf.buf.Length == sendBuf.buf.Length == sizeLimit
      ensures recvBuf.Contents() == [] && sendBuf.Contents() == [] && recvPacket.buf == []
      ensures delivered == [] && sendQueue == [] && !writeInterest
    {
      this.socket := socket;
      recvBuf := new ConnectionBuffer(sizeLimit);
      sendBuf := new ConnectionBuffer(sizeLimit);
      recvPacket := new Packet();
      delivered, sendQueue, writeInterest := [], [], false;
    }

    /** Everything the peer has sent, in order: delivered packets, the partial packet, the receive
        buffer, and what is still on its way. */
    ghost function Inbound(): seq<byte>
      requires Valid()
      reads this, socket, recvBuf, recvBuf.buf, sendBuf, recvPacket
    {
      Arrived() + socket.incoming
    }

    /** The part of it that was received. */
    ghost function Arrived(): seq<byte>
      requires Valid()
      reads this, recvBuf, recvBuf.buf, sendBuf, recvPacket
    {
      Concat(delivered) + recvPacket.buf + recvBuf.Contents()
    }

    /** Move bytes from the socket to the receive buffer; `ok` tells that the buffer has data and
        `closed` that the peer has closed, which the source reports by an exception. */
    method TryRecv() returns (ok: bool, closed: bool)
      requires Valid()
      modifies socket`incoming, socket`recvs, socket`closes, recvBuf, recvBuf.buf
      ensures Valid() && Inbound() == old(Inbound())
      ensures socket.closes == old(socket.closes) + if closed then 1 else 0
      ensures socket.recvs == old(socket.recvs) + if |old(recvBuf.Contents())| == recvBuf.buf.Length then 0 else 1
      ensures |old(socket.incoming)| + |old(recvBuf.Contents())| == |socket.incoming| + |recvBuf.Contents()|
      ensures |socket.incoming| <= |old(socket.incoming)|
      ensures !closed ==> (ok <==> recvBuf.Contents() != [])
    {
      hide Concat;
      closed := false;
      var room := recvBuf.Writeable(0);
      if room == 0 {
        ok := !recvBuf.Empty();
        return;
      }
      var r := socket.Recv(room);
      match r
      case Closed =>
        ok, closed := false, true;
      case WouldBlock =>
        ok := !recvBuf.Empty();
      case Received(data) =>
        ghost var was := recvBuf.Contents();
        recvBuf.WriteTail(data);
        var done := recvBuf.CommitWrite(|data|);
        assert recvBuf.Contents() == was + data;
        Regroup(Concat(delivered) + recvPacket.buf, was, data, socket.incoming);
        ok := true;
    }

    /** The read event: receive, parse and deliver until the data runs out.  Whatever the socket does,
        no byte is lost, duplicated or reordered; and if the peer sends frames (the ghost `contents`),
        the packets delivered are its first frames in order and, unless the peer closed, all that have
        wholly arrived.  A closing peer is noticed before the buffered rest is parsed. */
    method OnReadable(recvQueueFull: bool, ghost contents: seq<seq<byte>>) returns (closed: bool)
      requires Valid()
      modifies this`recvPacket, this`delivered, socket`incoming, socket`recvs, socket`closes
      modifies recvBuf, recvBuf.buf, recvPacket
      ensures Valid() && Inbound() == old(Inbound())
      ensures socket.closes == old(socket.closes) + if closed then 1 else 0
      ensures !recvQueueFull && |old(recvBuf.Contents())| < recvBuf.buf.Length ==> socket.recvs > old(socket.recvs)
      ensures old(OnTrack(contents, delivered, recvPacket.buf, Inbound())) ==>
        && Framed(contents, delivered, recvPacket.buf)
        && (!closed && !recvQueueFull ==> Drained() && DeliversArrived(contents, delivered, Arrived()))
        && (!closed && !recvQueueFull && recvBuf.buf.Length >= HEAD_SIZE ==> |recvBuf.Contents()| < recvBuf.buf.Length)
    {
      closed := false;
      if recvQueueFull { return; }
      ghost var good := OnTrack(contents, delivered, recvPacket.buf, Inbound());
      hide Concat, Frames, AllFit, OnTrack, AllParsed, DeliversArrived;
      while true
        invariant Valid() && Inbound() == old(Inbound())
        invariant socket.closes == old(socket.closes) && !closed
        invariant recvPacket == old(recvPacket) || fresh(recvPacket)
        invariant sendQueue == old(sendQueue)
        invariant good ==> OnTrack(contents, delivered, recvPacket.buf, Inbound())
        invariant || socket.recvs > old(socket.recvs) || |old(recvBuf.Contents())| == recvBuf.buf.Length
                  || (socket.recvs == old(socket.recvs) && recvBuf.Contents() == old(recvBuf.Contents()))
        decreases |socket.incoming| + |recvBuf.Contents()| + |recvPacket.buf|
      {
        var ok;
        ok, closed := TryRecv();
        if closed || !ok { break; }
        var complete := ParseAndDeliver(good, contents);
        if !complete { break; }
      }
      if good && !closed {
        OnTrackDelivers(contents, delivered, recvPacket.buf, recvBuf.Contents(), socket.incoming);
      }
    }

    /** One turn of the read loop on a non-empty receive buffer. */
    method ParseAndDeliver(ghost good: bool, ghost contents: seq<seq<byte>>) returns (complete: bool)
      requires Valid()
      requires good ==> OnTrack(contents, delivered, recvPacket.buf, Inbound())
      modifies this`recvPacket, this`delivered, recvBuf, recvPacket
      ensures Valid() && Inbound() == old(Inbound())
      ensures recvPacket == old(recvPacket) || fresh(recvPacket)
      ensures good ==> OnTrack(contents, delivered, recvPacket.buf, Inbound()) && (complete || Drained())
      ensures complete ==> |recvBuf.Contents()| + |recvPacket.buf| < |old(recvBuf.Contents())| + |old(recvPacket.buf)|
    {
      hide Concat, Framed, AllFit, Frames, ParseSize, AllParsed;
      var view := recvBuf.Readable();
      ghost var partial, incoming := recvPacket.buf, socket.incoming;
      ghost var taken := ParseSize(partial, view);
      ParseSizeBound(partial, view);
      TurnKeepsBytes(delivered, partial, view, taken, incoming);
      if good { TurnOnTrack(contents, delivered, partial, view, incoming); }
      var readSize := recvPacket.Parse(view);
      var committed := recvBuf.CommitRead(readSize);
      complete := recvPacket.Complete();
      if complete {
        delivered := delivered + [recvPacket.buf];
        recvPacket := new Packet();
      }
    }

    ghost predicate Drained()
      requires Valid()
      reads this, recvBuf, recvBuf.buf, sendBuf, recvPacket
    {
      AllParsed(recvPacket.buf, recvBuf.Contents())
    }

    // -------------------------------------------------------------- write event

    /** Everything accepted for sending, in order: handed to the socket, buffered, queued. */
    ghost function Outbound(): seq<byte>
      requires Valid()
      reads this, socket, recvBuf, sendBuf, sendBuf.buf, sendQueue
    {
      socket.sent + (sendBuf.Contents() + QueueBytes(sendQueue))
    }

    /** Hand the buffer to the socket; true when the buffer is empty afterwards. */
    method TrySend() returns (ok: bool)
      requires Valid()
      modifies socket`sent, socket`sends, socket`busy, sendBuf
      ensures Valid() && (!ok ==> socket.busy)
      ensures socket.sent + sendBuf.Contents() == old(socket.sent + sendBuf.Contents())
      ensures ok <==> sendBuf.Contents() == []
      ensures |sendBuf.Contents()| <= |old(sendBuf.Contents())|
      ensures socket.sends == old(socket.sends) + if old(sendBuf.Contents()) == [] then 0 else 1
    {
      var view := sendBuf.Readable();
      if |view| == 0 { return true; }
      var sendSize := socket.Send(view);
      if sendSize == -1 { return false; }
      assert view == view[..sendSize] + view[sendSize..];
      var committed := sendBuf.CommitRead(sendSize);
      ok := sendBuf.Empty();
    }

    /** Refill the empty send buffer from the queue, the last packet possibly in part. */
    method FillSendBuffer()
      requires Valid() && sendBuf.Contents() == [] && sendQueue != []
      modifies this`sendQueue, sendBuf, sendBuf.buf, set p | p in sendQueue
      ensures Valid() && Outbound() == old(Outbound())
      ensures forall p | p in sendQueue :: p in old(sendQueue)
      ensures QueueWork() < old(QueueWork())
    {
      ghost var work := QueueWork();
      while sendQueue != []
        invariant Valid() && Outbound() == old(Outbound())
        invariant forall p | p in sendQueue :: p in old(sendQueue)
        invariant QueueWork() <= work && (QueueWork() == work ==> sendBuf.Contents() == [] && sendQueue != [])
        decreases |sendQueue|
      {
        assert sendQueue[0] in sendQueue;
        var stop := LoadFront();
        if stop { break; }
      }
    }

    /** Bytes and packets still queued. */
    ghost function QueueWork(): nat
      reads this, sendQueue
    {
      |QueueBytes(sendQueue)| + |sendQueue|
    }

    /** memcpy into the tail, then commit. */
    method Deposit(data: seq<byte>)
      requires Valid() && sendBuf.dataEnd + |data| <= sendBuf.buf.Length
      modifies sendBuf, sendBuf.buf
      ensures Valid() && sendBuf.Contents() == old(sendBuf.Contents()) + data
    {
      sendBuf.WriteTail(data);
      var committed := sendBuf.CommitWrite(|data|);
    }

    /** Copy as much of a packet as fits into the buffer, unless that is full. */
    method CopyIn(packet: Packet) returns (full: bool, copied: nat)
      requires Valid()
      modifies sendBuf, sendBuf.buf
      ensures Valid() && copied <= |packet.buf|
      ensures sendBuf.Contents() == old(sendBuf.Contents()) + packet.buf[..copied]
      ensures (full <==> |old(sendBuf.Contents())| == sendBuf.buf.Length) && (full ==> copied == 0)
      ensures !full && packet.buf != [] ==> copied > 0
    {
      copied := 0;
      var room := sendBuf.Writeable(|packet.buf|);
      full := room == 0;
      if full { return; }
      var out := packet.Copy(room);
      Deposit(out);
      copied := |out|;
    }

    /** Copy as much of the front packet as fits; stop when it did not fit whole. */
    method LoadFront() returns (stop: bool)
      requires Valid() && sendQueue != []
      modifies this`sendQueue, sendBuf, sendBuf.buf, sendQueue[0]
      ensures Valid() && Outbound() == old(Outbound())
      ensures sendQueue == if stop then old(sendQueue) else old(sendQueue)[1..]
      ensures QueueWork() <= old(QueueWork())
      ensures old(sendBuf.Contents()) == [] ==> QueueWork() < old(QueueWork())
    {
      hide QueueBytes;
      var packet := sendQueue[0];
      ghost var was, rest, bytes := sendBuf.Contents(), QueueBytes(sendQueue[1..]), packet.buf;
      QueueFront(sendQueue);
      var full, copied := CopyIn(packet);
      if full { return true; }
      stop := copied < |packet.buf|;
      if stop {
        packet.Pop(copied);
        QueueFront(sendQueue);
        MovePart(was, bytes, copied, rest);
      } else {
        sendQueue := sendQueue[1..];
        MoveAll(was, bytes, rest);
      }
    }

    /** The write event: send, refill, send again until the socket is busy or everything is out.  The
        stream of accepted bytes is kept whatever the socket accepts and however large the packets are;
        interest in writing is dropped only when buffer and queue are empty, and kept only when the
        socket did not take all it was given and bytes are waiting in the buffer. */
    method OnWritable()
      requires Valid() && writeInterest
      modifies this`sendQueue, this`writeInterest, socket`sent, socket`sends, socket`busy, sendBuf, sendBuf.buf
      modifies set p | p in sendQueue
      ensures Valid() && Outbound() == old(Outbound())
      ensures if writeInterest then socket.busy && sendBuf.Contents() != []
              else sendBuf.Contents() == [] && sendQueue == []
      ensures writeInterest || old(sendBuf.Contents()) != [] ==> socket.sends > old(socket.sends)
    {
      while true
        invariant Valid() && writeInterest && Outbound() == old(Outbound())
        invariant forall p | p in sendQueue :: p in old(sendQueue)
        invariant socket.sends > old(socket.sends)
          || (socket.sends == old(socket.sends)
              && (old(sendBuf.Contents()) == [] || sendBuf.Contents() == old(sendBuf.Contents())))
        decreases QueueWork()
      {
        ghost var queued := QueueBytes(sendQueue);
        ghost var sent, buffered := socket.sent, sendBuf.Contents();
        var ok := TrySend();
        assert QueueBytes(sendQueue) == queued;
        assert Outbound() == (socket.sent + sendBuf.Contents()) + queued;
        assert old(Outbound()) == (sent + buffered) + queued;
        if !ok { break; }
        if sendQueue == [] {
          writeInterest := false;
          break;
        }
        FillSendBuffer();
      }
    }
  }

  lemma Regroup(a: seq<byte>, b: seq<byte>, c: seq<byte>, d: seq<byte>)
    ensures a + b + (c + d) == a + (b + c) + d
  {}

  /** A front packet's bytes move from the queue to the buffer, whole or in part. */
  lemma MoveAll(was: seq<byte>, bytes: seq<byte>, rest: seq<byte>)
    ensures (was + bytes) + rest == was + (bytes + rest)
  {}

  lemma MovePart(was: seq<byte>, bytes: seq<byte>, n: nat, rest: seq<byte>)
    requires n <= |bytes|
    ensures (was + bytes[..n]) + (bytes[n..] + rest) == was + (bytes + rest)
  {
    assert bytes == bytes[..n] + bytes[n..];
  }

  lemma QueueFront(queue: seq<Packet>)
    requires queue != []
    ensures QueueBytes(queue) == queue[0].buf + QueueBytes(queue[1..])
  {}

  /** The queued packets' bytes, front first. */
  ghost function QueueBytes(queue: seq<Packet>): seq<byte>
    reads queue
  {
    if queue == [] then [] else queue[0].buf + QueueBytes(queue[1..])
  }
}
