/** The session object: the handlers over its mutable fields, each proved to take the step that the
    bridge model gives it. */
module WsSession {
  import opened Wrappers
  import opened Frames
  import opened Channels
  import opened Bridge

  const SERVER_CHANNEL_CAPACITY := 10

  /** The WebSocket of a session. Handlers only start operations; their completions are events. */
  class Socket {
    var status: Status
    var listening: bool
    var inFlight: bool
    var out: seq<Message>
    ghost var heard: seq<Message>
    ghost var gone: seq<Message>
    ghost var lost: seq<Message>

    constructor ()
      ensures status == Connecting && !listening && !inFlight
      ensures out == [] && heard == [] && gone == [] && lost == []
    {
      status, listening, inFlight := Connecting, false, false;
      out, heard, gone, lost := [], [], [], [];
    }

    method Close()
      modifies this`status
      ensures status == if old(status) == Open then Closing else old(status)
    {
      if status == Open {
        status := Closing;
      }
    }

    method Receive()
      modifies this`listening
      ensures listening == (old(listening) || status != Ended)
    {
      if status != Ended {
        listening := true;
      }
    }

    method Send(m: Message)
      modifies this`out, this`lost, this`inFlight
      ensures status == Open ==> out == old(out) + [m] && lost == old(lost) && inFlight
      ensures status != Open ==> out == old(out) && lost == old(lost) + [m] && inFlight == old(inFlight)
    {
      if status == Open {
        out, inFlight := out + [m], true;
      } else {
        lost := lost + [m];
      }
    }
  }

  class CommonWsSession {
    const codec: Codec
    const socket: Socket
    var cvt: Option<Mode>
    var readStream: BufferedChannel?<Frame>
    var writeStream: BufferedChannel?<Frame>
    var receiving: Option<Frame>
    var sending: Option<Buffer>

    /** The dispatch streams are there, and are two. */
    ghost predicate Connected()
      reads this
    {
      readStream != null && writeStream != null && readStream != writeStream
    }

    /** The bridge state this session is in; what its local side still wants to push is not part of it. */
    ghost function View(): End
      requires Connected()
      reads this, socket, readStream, writeStream
    {
      End(socket.status, cvt, readStream.View(), writeStream.View(), receiving, sending,
          socket.listening, socket.inFlight, socket.heard, socket.gone, socket.out, socket.lost, [])
    }

    /** A client's session gets its dispatch streams at construction. */
    constructor Client(codec: Codec, socket: Socket,
                       readStream: BufferedChannel<Frame>, writeStream: BufferedChannel<Frame>)
      requires readStream != writeStream
      ensures this.codec == codec && this.socket == socket
      ensures this.readStream == readStream && this.writeStream == writeStream && Connected()
      ensures cvt.None? && receiving.None? && sending.None?
    {
      this.codec, this.socket := codec, socket;
      this.readStream, this.writeStream := readStream, writeStream;
      cvt, receiving, sending := None, None, None;
    }

    /** A server's session has none until it opens. */
    constructor Server(codec: Codec, socket: Socket)
      ensures this.codec == codec && this.socket == socket
      ensures readStream == null && writeStream == null
      ensures cvt.None? && receiving.None? && sending.None?
    {
      this.codec, this.socket := codec, socket;
      readStream, writeStream := null, null;
      cvt, receiving, sending := None, None, None;
    }

    method WsOpened(target: string)
      modifies this`cvt, socket`listening
      ensures cvt == Some(ModeOf(target))
      ensures target == "/cbor" ==> cvt == Some(Cbor)
      ensures target != "/cbor" ==> cvt == Some(Json)
      ensures socket.listening == (old(socket.listening) || socket.status != Ended)
    {
      if target == "/cbor" {
        cvt := Some(Cbor);
      } else {
        cvt := Some(Json);
      }
      socket.Receive();
    }

    method TryWriteToDispatch()
      requires Connected()
      modifies this`receiving, socket`status, socket`listening, writeStream
      ensures Connected() && View() == Bridge.TryWriteToDispatch(old(View()))
    {
      if receiving.None? {
        return;
      }
      var res := writeStream.Write(receiving.value);
      if res.Blocked? {
        return;
      }
      if res.Closed? {
        socket.Close();
        return;
      }
      assert res.Done?;
      receiving := None;
      socket.Receive();
    }

    /** Called with a message that just arrived. */
    method Received(m: Message)
      requires Connected() && receiving.None?
      modifies this`receiving, socket`status, socket`listening, writeStream
      ensures Connected() && View() == Bridge.Received(codec, old(View()), m)
      ensures forall f :: Parsed(codec, m).Some? && Depicts(Parsed(codec, m).value, f) ==>
        Accepted(old(View()), View(), f)
      ensures (forall f :: Parsed(codec, m).Some? ==> !Depicts(Parsed(codec, m).value, f)) ==>
        Refused(old(View()), View())
    {
      ReceivedExact(codec, View(), m);
      hide Depicts, Accepted, Refused;
      assert receiving.None?;
      receiving := Some(EMPTY_FRAME);
      var frame := Decode(codec, m);
      if frame.None? {
        socket.Close();
        return;
      }
      receiving := frame;
      TryWriteToDispatch();
    }

    method TryReadFromDispatch()
      requires Connected() && cvt.Some?
      modifies this`sending, socket`status, socket`inFlight, socket`out, socket`lost, readStream
      ensures Connected() && View() == Bridge.TryReadFromDispatch(codec, old(View()))
    {
      if sending.Some? {
        return;
      }
      sending := Some(Buffer("", []));
      var res := readStream.Read();
      if res.Done? {
        sending := Some(FromAcFrame(codec, cvt.value, res.value));
        DoSend();
        return;
      }
      sending := None;
      if res.Closed? {
        socket.Close();
      }
      assert res.Closed? || res.Blocked?;
    }

    method DoSend()
      requires sending.Some?
      modifies socket`inFlight, socket`out, socket`lost
      ensures sending.value.textBuf != "" ==> ToMessage(sending.value) == Text(sending.value.textBuf)
      ensures sending.value.textBuf == "" ==> ToMessage(sending.value) == Binary(sending.value.binaryBuf)
      ensures socket.status == Open ==>
        socket.out == old(socket.out) + [ToMessage(sending.value)] && socket.lost == old(socket.lost)
        && socket.inFlight
      ensures socket.status != Open ==>
        socket.out == old(socket.out) && socket.lost == old(socket.lost) + [ToMessage(sending.value)]
        && socket.inFlight == old(socket.inFlight)
    {
      assert sending.Some?;
      if sending.value.IsText() {
        socket.Send(Text(sending.value.textBuf));
      } else {
        socket.Send(Binary(sending.value.binaryBuf));
      }
    }

    // ---- what the socket and the executor call ----

    /** The server creates the channels only after the first receive was started, hands their other
        ends to a new local session, and then starts sending. */
    method ServerOpened(target: string, drains: bool)
      requires socket.status == Connecting && !socket.listening && !socket.inFlight
      requires socket.out == [] && socket.heard == [] && socket.gone == [] && socket.lost == []
      requires receiving.None? && sending.None?
      modifies this, socket
      ensures Connected() && fresh(readStream) && fresh(writeStream)
      ensures View() == Next(codec, Start(10, drains, []), Opened(target))
    {
      socket.status := Open;
      WsOpened(target);
      readStream := new BufferedChannel(SERVER_CHANNEL_CAPACITY, drains);
      writeStream := new BufferedChannel(SERVER_CHANNEL_CAPACITY, drains);
      readStream.writer := Side(false, 1);
      writeStream.reader := Side(false, 1);
      hide Bridge.TryReadFromDispatch;
      assert View() == Bridge.WsOpened(Start(SERVER_CHANNEL_CAPACITY, drains, []).(status := Open), target);
      TryReadFromDispatch();
    }

    method ClientOpened(target: string)
      requires Connected() && Enabled(View(), Opened(target))
      modifies this, socket, readStream
      ensures Connected() && View() == Next(codec, old(View()), Opened(target))
    {
      socket.status := Open;
      WsOpened(target);
      TryReadFromDispatch();
    }

    method WsClosed()
      requires Connected() && Enabled(View(), SocketClosed)
      modifies socket`status, socket`listening, socket`inFlight, readStream, writeStream
      ensures Connected() && View() == Next(codec, old(View()), SocketClosed)
    {
      socket.status, socket.listening, socket.inFlight := Ended, false, false;
      readStream.Close();
      writeStream.Close();
    }

    method WsReceivedText(text: string)
      requires Connected() && Tokens(codec, View()) && Enabled(View(), Arrive(Text(text)))
      modifies this`receiving, socket, writeStream
      ensures Connected() && View() == Next(codec, old(View()), Arrive(Text(text)))
    {
      socket.listening, socket.heard := false, socket.heard + [Text(text)];
      Received(Text(text));
    }

    method WsReceivedBinary(bytes: seq<Byte>)
      requires Connected() && Tokens(codec, View()) && Enabled(View(), Arrive(Binary(bytes)))
      modifies this`receiving, socket, writeStream
      ensures Connected() && View() == Next(codec, old(View()), Arrive(Binary(bytes)))
    {
      socket.listening, socket.heard := false, socket.heard + [Binary(bytes)];
      Received(Binary(bytes));
    }

    method WsCompletedSend()
      requires Connected() && Enabled(View(), SendCompleted)
      modifies this`sending, socket, readStream
      ensures Connected() && View() == Next(codec, old(View()), SendCompleted)
    {
      socket.inFlight := false;
      sending := None;
      TryReadFromDispatch();
    }

    /** The task a fired write waiter posted. */
    method RetryWrite()
      requires Connected() && Enabled(View(), Event.RetryWrite)
      modifies this`receiving, socket`status, socket`listening, writeStream
      ensures Connected() && View() == Next(codec, old(View()), Event.RetryWrite)
    {
      writeStream.writer := writeStream.writer.Take();
      TryWriteToDispatch();
    }

    /** The task a fired read waiter posted. */
    method RetryRead()
      requires Connected() && Enabled(View(), Event.RetryRead)
      modifies this`sending, socket`status, socket`inFlight, socket`out, socket`lost, readStream
      ensures Connected() && View() == Next(codec, old(View()), Event.RetryRead)
    {
      readStream.reader := readStream.reader.Take();
      TryReadFromDispatch();
    }
  }
}
