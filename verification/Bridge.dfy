/** One end of a connection: a WebSocket session that moves frames between its socket and its two
    dispatch channels, together with the local side that pushes and polls those channels. Every
    event below is one handler that runs to completion. */
module Bridge {
  import opened Wrappers
  import opened Frames
  import opened Channels

  datatype Status = Connecting | Open | Closing | Ended

  /** `near` is read by the session and written by the local side; `far` the other way round.
      `out` holds messages given to the network and not yet taken by it, `gone` those it took,
      `heard` those it handed over, `lost` those sent when the socket no longer sends.
      `listening`: a receive is outstanding. `inFlight`: a send is. `todo`: what the local side
      still has to push. */
  datatype End = End(
    status: Status, cvt: Option<Mode>,
    near: Chan<Frame>, far: Chan<Frame>,
    receiving: Option<Frame>, sending: Option<Buffer>,
    listening: bool, inFlight: bool,
    heard: seq<Message>, gone: seq<Message>, out: seq<Message>, lost: seq<Message>,
    todo: seq<Frame>)

  datatype Event =
    | Opened(target: string)
    | Push | Poll | HangUp
    | RetryWrite | RetryRead
    | Arrive(m: Message) | Depart | SendCompleted
    | SocketClosed

  // ---- calls into the socket ----

  function WsClose(e: End): End {
    if e.status == Open then e.(status := Closing) else e
  }

  function WsReceive(e: End): End {
    if e.status == Ended then e else e.(listening := true)
  }

  /** A socket that is closing takes no further message and completes none. */
  function WsSend(e: End, m: Message): End {
    if e.status == Open then e.(out := e.out + [m], inFlight := true)
    else e.(lost := e.lost + [m])
  }

  // ---- the session's handlers ----

  function TryWriteToDispatch(e: End): End {
    if e.receiving.None? then e else
    var (far, res) := e.far.Write(e.receiving.value);
    match res
    case Blocked => e.(far := far)
    case Closed => WsClose(e.(far := far))
    case Done(_) => WsReceive(e.(far := far, receiving := None))
  }

  function Received(c: Codec, e: End, m: Message): End {
    match Decode(c, m)
    case None => WsClose(e.(receiving := Some(EMPTY_FRAME)))
    case Some(f) => TryWriteToDispatch(e.(receiving := Some(f)))
  }

  function TryReadFromDispatch(c: Codec, e: End): End
    requires e.cvt.Some?
  {
    if e.sending.Some? then e else
    var (near, res) := e.near.Read();
    match res
    case Done(f) =>
      var buf := FromAcFrame(c, e.cvt.value, f);
      WsSend(e.(near := near, sending := Some(buf)), ToMessage(buf))
    case Closed => WsClose(e.(near := near))
    case Blocked => e.(near := near)
  }

  function WsOpened(e: End, target: string): End {
    WsReceive(e.(cvt := Some(ModeOf(target))))
  }

  function WsCompletedSend(c: Codec, e: End): End
    requires e.cvt.Some?
  {
    TryReadFromDispatch(c, e.(sending := None))
  }

  function WsClosed(e: End): End {
    e.(near := e.near.Close(), far := e.far.Close())
  }

  // ---- events ----

  predicate Enabled(e: End, ev: Event) {
    match ev
    case Opened(_) => e.status == Connecting
    case Push => e.todo != [] && e.near.writer.tasks > 0
    case Poll => e.far.reader.tasks > 0
    case HangUp => !e.near.closed || !e.far.closed
    case RetryWrite => e.far.writer.tasks > 0
    case RetryRead => e.near.reader.tasks > 0 && e.cvt.Some?
    case Arrive(_) => e.listening
    case Depart => e.out != []
    case SendCompleted => e.inFlight && e.cvt.Some?
    case SocketClosed => e.status == Open || e.status == Closing
  }

  /** The local side keeps one retry in hand while its calls succeed and gives it up on a close. */
  function Next(c: Codec, e: End, ev: Event): End
    requires Enabled(e, ev)
  {
    match ev
    case Opened(target) => TryReadFromDispatch(c, WsOpened(e.(status := Open), target))
    case Push =>
      var (near, res) := e.near.(writer := e.near.writer.Take()).Write(e.todo[0]);
      if res.Done? then e.(near := near.(writer := e.near.writer), todo := e.todo[1..])
      else e.(near := near)
    case Poll =>
      var (far, res) := e.far.(reader := e.far.reader.Take()).Read();
      e.(far := if res.Done? then far.(reader := e.far.reader) else far)
    case HangUp => e.(near := e.near.Close(), far := e.far.Close())
    case RetryWrite => TryWriteToDispatch(e.(far := e.far.(writer := e.far.writer.Take())))
    case RetryRead => TryReadFromDispatch(c, e.(near := e.near.(reader := e.near.reader.Take())))
    case Arrive(m) => Received(c, e.(listening := false, heard := e.heard + [m]), m)
    case Depart => e.(gone := e.gone + [e.out[0]], out := e.out[1..])
    case SendCompleted => WsCompletedSend(c, e.(inFlight := false))
    case SocketClosed => WsClosed(e.(status := Ended, listening := false, inFlight := false))
  }

  function Start(capacity: nat, drains: bool, todo: seq<Frame>): End {
    End(Connecting, None,
        NewChan(capacity, drains).(writer := Side(false, 1)), NewChan(capacity, drains).(reader := Side(false, 1)),
        None, None, false, false, [], [], [], [], todo)
  }

  // ---- the token discipline ----

  function ReceiveTokens(e: End): nat { e.far.writer.Tokens() + if e.listening then 1 else 0 }

  function SendTokens(e: End): nat { e.near.reader.Tokens() + if e.inFlight then 1 else 0 }

  /** The last message heard decoded (or none was heard). */
  predicate LastDecodes(c: Codec, ms: seq<Message>) {
    ms != [] ==> Decode(c, ms[|ms| - 1]).Some?
  }

  /** The receive half, while a running handler holds `held` of its tokens. */
  ghost predicate Receiving(c: Codec, e: End, held: nat) {
    && e.far.Valid()
    && (!e.far.closed ==> e.far.reader.Tokens() == 1)
    && ReceiveTokens(e) + held <= 1
    && (e.status == Open ==> ReceiveTokens(e) + held == 1 && (e.receiving.None? <==> e.listening))
    && (e.status == Connecting ==> ReceiveTokens(e) + held == 0 && e.receiving.None?)
    && (e.status == Ended ==> e.far.closed && !e.listening)
    && (e.listening ==> e.receiving.None?)
    && (e.far.writer.Tokens() + held > 0 ==> e.receiving.Some? && LastDecodes(c, e.heard))
  }

  /** The send half, while a running handler holds `held` of its tokens. */
  ghost predicate Sending(e: End, held: nat) {
    && e.near.Valid()
    && (!e.near.closed ==> e.near.writer.Tokens() == 1)
    && SendTokens(e) + held <= 1
    && (e.status == Open ==> SendTokens(e) + held == 1 && (e.sending.Some? <==> e.inFlight))
    && (e.status == Connecting ==> SendTokens(e) + held == 0 && e.sending.None?)
    && (e.status == Ended ==> e.near.closed && !e.inFlight)
    && (e.inFlight ==> e.sending.Some?)
    && (e.near.reader.Tokens() + held > 0 ==> e.sending.None?)
  }

  /** In an open session exactly one thing will resume receiving and exactly one will resume
      sending; a session that is closing or closed never has more than one of each. */
  ghost predicate Tokens(c: Codec, e: End) {
    && Receiving(c, e, 0) && Sending(e, 0)
    && (e.status == Connecting <==> e.cvt.None?)
  }

  lemma WriteKeeps(c: Codec, e: End)
    requires Receiving(c, e, 1)
    ensures Receiving(c, TryWriteToDispatch(e), 0)
  {
  }

  lemma ReadKeeps(c: Codec, e: End)
    requires Sending(e, 1) && e.cvt.Some?
    ensures Sending(TryReadFromDispatch(c, e), 0)
  {
  }

  /** A write attempt leaves the send half alone, except that it may start closing the socket. */
  lemma WriteFrame(e: End)
    ensures var r := TryWriteToDispatch(e);
      r.(far := e.far, receiving := e.receiving, listening := e.listening, status := e.status) == e
    ensures var r := TryWriteToDispatch(e); r.status == e.status || (e.status == Open && r.status == Closing)
  {
  }

  lemma ReadFrame(c: Codec, e: End)
    requires e.cvt.Some?
    ensures var r := TryReadFromDispatch(c, e);
      r.(near := e.near, sending := e.sending, inFlight := e.inFlight, out := e.out, lost := e.lost,
         status := e.status) == e
    ensures var r := TryReadFromDispatch(c, e); r.status == e.status || (e.status == Open && r.status == Closing)
  {
  }

  lemma OpenedKept(c: Codec, e: End, target: string)
    requires Tokens(c, e) && Enabled(e, Opened(target))
    ensures Tokens(c, Next(c, e, Opened(target)))
  {
    var m := WsOpened(e.(status := Open), target);
    ReadKeeps(c, m);
    ReadFrame(c, m);
  }

  lemma PushKept(c: Codec, e: End)
    requires Tokens(c, e) && Enabled(e, Push)
    ensures Tokens(c, Next(c, e, Push))
  {
    hide TryReadFromDispatch, TryWriteToDispatch, LastDecodes;
  }

  lemma PollKept(c: Codec, e: End)
    requires Tokens(c, e) && Enabled(e, Poll)
    ensures Tokens(c, Next(c, e, Poll))
  {
    hide TryReadFromDispatch, TryWriteToDispatch, LastDecodes;
  }

  lemma HangUpKept(c: Codec, e: End)
    requires Tokens(c, e) && Enabled(e, HangUp)
    ensures Tokens(c, Next(c, e, HangUp))
  {
    hide TryReadFromDispatch, TryWriteToDispatch, LastDecodes;
  }

  lemma RetryWriteKept(c: Codec, e: End)
    requires Tokens(c, e) && Enabled(e, RetryWrite)
    ensures Tokens(c, Next(c, e, RetryWrite))
  {
    var m := e.(far := e.far.(writer := e.far.writer.Take()));
    WriteKeeps(c, m);
    WriteFrame(m);
  }

  lemma RetryReadKept(c: Codec, e: End)
    requires Tokens(c, e) && Enabled(e, RetryRead)
    ensures Tokens(c, Next(c, e, RetryRead))
  {
    var m := e.(near := e.near.(reader := e.near.reader.Take()));
    ReadKeeps(c, m);
    ReadFrame(c, m);
  }

  lemma ArriveKept(c: Codec, e: End, msg: Message)
    requires Tokens(c, e) && Enabled(e, Arrive(msg))
    ensures Tokens(c, Next(c, e, Arrive(msg)))
  {
    var m := e.(listening := false, heard := e.heard + [msg]);
    if Decode(c, msg).Some? {
      var n := m.(receiving := Decode(c, msg));
      WriteKeeps(c, n);
      WriteFrame(n);
    }
  }

  lemma SendCompletedKept(c: Codec, e: End)
    requires Tokens(c, e) && Enabled(e, SendCompleted)
    ensures Tokens(c, Next(c, e, SendCompleted))
  {
    var m := e.(inFlight := false, sending := None);
    ReadKeeps(c, m);
    ReadFrame(c, m);
  }

  lemma SocketClosedKept(c: Codec, e: End)
    requires Tokens(c, e) && Enabled(e, SocketClosed)
    ensures Tokens(c, Next(c, e, SocketClosed))
  {
    hide TryReadFromDispatch, TryWriteToDispatch, LastDecodes;
  }

  lemma DepartKept(c: Codec, e: End)
    requires Tokens(c, e) && Enabled(e, Depart)
    ensures Tokens(c, Next(c, e, Depart))
  {
  }

  /** Every handler keeps the tokens. */
  lemma TokensKept(c: Codec, e: End, ev: Event)
    requires Tokens(c, e) && Enabled(e, ev)
    ensures Tokens(c, Next(c, e, ev))
  {
    hide *;
    match ev
    case Opened(target) => OpenedKept(c, e, target);
    case Push => PushKept(c, e);
    case Poll => PollKept(c, e);
    case HangUp => HangUpKept(c, e);
    case RetryWrite => RetryWriteKept(c, e);
    case RetryRead => RetryReadKept(c, e);
    case Arrive(msg) => ArriveKept(c, e, msg);
    case Depart => DepartKept(c, e);
    case SendCompleted => SendCompletedKept(c, e);
    case SocketClosed => SocketClosedKept(c, e);
  }

  // ---- what becomes of a message ----

  /** A message that depicts a frame: the frame is written behind what is queued, or held with a callback
      registered when the channel is full, or held while the socket starts closing when it is closed. */
  ghost predicate Accepted(e: End, n: End, f: Frame) {
    if e.far.closed then
      n.receiving == Some(f) && n.far == e.far && n.status == (if e.status == Open then Closing else e.status)
    else if |e.far.queue| < e.far.capacity then
      n.receiving == None && n.far.queue == e.far.queue + [f] && n.status == e.status
      && n.listening == (e.listening || e.status != Ended)
    else
      n.receiving == Some(f) && n.far.queue == e.far.queue && n.far.writer.waiting && n.status == e.status
  }

  /** Any other message: nothing is written and the socket starts closing. */
  ghost predicate Refused(e: End, n: End) {
    && n.receiving.Some? && n.far == e.far && n.listening == e.listening
    && n.status == if e.status == Open then Closing else e.status
  }

  /** What becomes of a message rests on the value in it alone. */
  lemma ReceivedExact(c: Codec, e: End, m: Message)
    ensures forall f :: Parsed(c, m).Some? && Depicts(Parsed(c, m).value, f) ==> Accepted(e, Received(c, e, m), f)
    ensures (forall f :: Parsed(c, m).Some? ==> !Depicts(Parsed(c, m).value, f)) ==> Refused(e, Received(c, e, m))
  {
    hide Decode, Depicts, Parsed;
    forall f | Parsed(c, m).Some? && Depicts(Parsed(c, m).value, f) ensures Accepted(e, Received(c, e, m), f) {
      DecodeExact(c, m, f);
    }
    if Decode(c, m).Some? {
      DecodeExact(c, m, Decode(c, m).value);
    }
  }

  // ---- what happened to every frame ----

  function EncodeAll(c: Codec, mode: Mode, fs: seq<Frame>): (r: seq<Message>)
    ensures |r| == |fs| && forall i | 0 <= i < |fs| :: r[i] == Encode(c, mode, fs[i])
  {
    seq(|fs|, i requires 0 <= i < |fs| => Encode(c, mode, fs[i]))
  }

  /** The frames of the messages that decode, in order. */
  function Decoded(c: Codec, ms: seq<Message>): seq<Frame> {
    if ms == [] then []
    else Decoded(c, ms[..|ms| - 1]) + Decode(c, ms[|ms| - 1]).ToSeq()
  }

  /** A frame that arrived and decoded but is not in the dispatch channel yet. */
  function Held(c: Codec, e: End): seq<Frame> {
    if LastDecodes(c, e.heard) then e.receiving.ToSeq() else []
  }

  /** Outgoing: the messages sent are the encodings of exactly the frames read from `near`. */
  ghost predicate Outbound(c: Codec, e: End) {
    && (e.cvt.None? ==> e.near.passed == [] && e.gone + e.out + e.lost == [])
    && (e.cvt.Some? ==> EncodeAll(c, e.cvt.value, e.near.passed) == e.gone + e.out + e.lost)
    && (e.status == Open || e.status == Connecting ==> e.lost == [])
  }

  /** Incoming: what was ever written to `far`, and the frame held if any, are the frames of exactly
      the messages heard; only the last message heard may have failed to decode, and then nothing
      is left that could write the slot's contents. */
  ghost predicate Inbound(c: Codec, e: End) {
    && Decoded(c, e.heard) == e.far.Written() + Held(c, e)
    && (forall i | 0 <= i < |e.heard| - 1 :: Decode(c, e.heard[i]).Some?)
    && (!LastDecodes(c, e.heard) ==> ReceiveTokens(e) == 0 && e.receiving.Some?)
  }

  ghost predicate Accounted(c: Codec, e: End) { Outbound(c, e) && Inbound(c, e) }

  lemma WriteAccounts(c: Codec, e: End)
    requires Inbound(c, e) && LastDecodes(c, e.heard)
    ensures Inbound(c, TryWriteToDispatch(e))
  {
    hide Decode, Decoded;
  }

  lemma ReadAccounts(c: Codec, e: End)
    requires Outbound(c, e) && e.cvt.Some? && (e.status == Open ==> e.lost == []) && e.status != Connecting
    ensures Outbound(c, TryReadFromDispatch(c, e))
  {
    var (near, res) := e.near.Read();
    if e.sending.None? && res.Done? {
      assert EncodeAll(c, e.cvt.value, near.passed)
          == EncodeAll(c, e.cvt.value, e.near.passed) + [Encode(c, e.cvt.value, res.value)];
      if e.status == Open {
        assert e.gone + (e.out + [Encode(c, e.cvt.value, res.value)]) + e.lost
            == e.gone + e.out + e.lost + [Encode(c, e.cvt.value, res.value)];
      } else {
        assert e.gone + e.out + (e.lost + [Encode(c, e.cvt.value, res.value)])
            == e.gone + e.out + e.lost + [Encode(c, e.cvt.value, res.value)];
      }
    }
  }

  /** A message that arrived and decoded is in the receive slot. */
  lemma HeardOneMore(c: Codec, e: End, m: Message)
    requires Tokens(c, e) && Inbound(c, e) && e.listening
    ensures var n := e.(listening := false, heard := e.heard + [m]);
      if Decode(c, m).Some? then
        Inbound(c, n.(receiving := Decode(c, m))) && LastDecodes(c, n.heard)
      else Inbound(c, n.(receiving := Some(EMPTY_FRAME)))
  {
    var n := e.(listening := false, heard := e.heard + [m]);
    assert n.heard[..|n.heard| - 1] == e.heard;
    assert LastDecodes(c, e.heard) && e.receiving.None?;
  }

  /** Outgoing accounts rest on the send half alone. */
  lemma OutboundSame(c: Codec, e: End, n: End)
    requires Outbound(c, e) && n.cvt == e.cvt && n.near.passed == e.near.passed
    requires n.gone + n.out == e.gone + e.out && n.lost == e.lost
    requires n.status == e.status || (n.status != Open && n.status != Connecting)
    ensures Outbound(c, n)
  {
  }

  lemma ArriveAccounts(c: Codec, e: End, m: Message)
    requires Tokens(c, e) && Accounted(c, e) && Enabled(e, Arrive(m))
    ensures Accounted(c, Next(c, e, Arrive(m)))
  {
    var n := e.(listening := false, heard := e.heard + [m]);
    HeardOneMore(c, e, m);
    if Decode(c, m).Some? {
      hide Inbound, Outbound, TryWriteToDispatch;
      var h := n.(receiving := Decode(c, m));
      WriteAccounts(c, h);
      WriteFrame(h);
      OutboundSame(c, e, TryWriteToDispatch(h));
    } else {
      var bad := n.(receiving := Some(EMPTY_FRAME));
      hide Outbound;
      OutboundSame(c, e, WsClose(bad));
      InboundSame(c, bad, WsClose(bad));
    }
  }

  lemma OpenedAccounts(c: Codec, e: End, target: string)
    requires Tokens(c, e) && Outbound(c, e) && Enabled(e, Opened(target))
    ensures Outbound(c, Next(c, e, Opened(target)))
  {
    var m := WsOpened(e.(status := Open), target);
    assert EncodeAll(c, m.cvt.value, m.near.passed) == [];
    assert Outbound(c, m);
    hide TryReadFromDispatch;
    ReadAccounts(c, m);
  }

  lemma OutboundKept(c: Codec, e: End, ev: Event)
    requires Tokens(c, e) && Outbound(c, e) && Enabled(e, ev) && !ev.Arrive?
    ensures Outbound(c, Next(c, e, ev))
  {
    match ev
    case Opened(target) => OpenedAccounts(c, e, target);
    case RetryWrite =>
      hide Outbound, TryWriteToDispatch;
      WriteFrame(e.(far := e.far.(writer := e.far.writer.Take())));
      OutboundSame(c, e, Next(c, e, ev));
    case RetryRead =>
      hide TryReadFromDispatch;
      ReadAccounts(c, e.(near := e.near.(reader := e.near.reader.Take())));
    case SendCompleted =>
      hide TryReadFromDispatch;
      ReadAccounts(c, e.(inFlight := false, sending := None));
    case Depart =>
      assert e.gone + [e.out[0]] + e.out[1..] == e.gone + e.out;
      OutboundSame(c, e, Next(c, e, ev));
    case Arrive(_) => assert false;
    case _ =>
      hide Outbound, TryReadFromDispatch, TryWriteToDispatch;
      OutboundSame(c, e, Next(c, e, ev));
  }

  /** Incoming accounts rest on the receive half alone. */
  lemma InboundSame(c: Codec, e: End, n: End)
    requires Inbound(c, e) && n.heard == e.heard && n.receiving == e.receiving
    requires n.far.Written() == e.far.Written() && ReceiveTokens(n) <= ReceiveTokens(e)
    ensures Inbound(c, n)
  {
  }

  lemma PollWrites(c: Codec, e: End)
    requires Tokens(c, e) && Enabled(e, Poll)
    ensures var n := Next(c, e, Poll);
      n.heard == e.heard && n.receiving == e.receiving && n.far.Written() == e.far.Written()
      && ReceiveTokens(n) <= ReceiveTokens(e)
  {
  }

  lemma OpenedInbound(c: Codec, e: End, target: string)
    requires Tokens(c, e) && Inbound(c, e) && Enabled(e, Opened(target))
    ensures Inbound(c, Next(c, e, Opened(target)))
  {
    var m := WsOpened(e.(status := Open), target);
    assert Inbound(c, m);
    hide Inbound, TryReadFromDispatch;
    ReadFrame(c, m);
    InboundSame(c, m, TryReadFromDispatch(c, m));
  }

  lemma RetryWriteAccounts(c: Codec, e: End)
    requires Tokens(c, e) && Inbound(c, e) && Enabled(e, RetryWrite)
    ensures Inbound(c, Next(c, e, RetryWrite))
  {
    var m := e.(far := e.far.(writer := e.far.writer.Take()));
    assert Inbound(c, m);
    hide TryWriteToDispatch;
    WriteAccounts(c, m);
  }

  lemma InboundKept(c: Codec, e: End, ev: Event)
    requires Tokens(c, e) && Inbound(c, e) && Enabled(e, ev) && !ev.Arrive?
    ensures Inbound(c, Next(c, e, ev))
  {
    match ev
    case Opened(target) =>
      hide Inbound, TryReadFromDispatch;
      OpenedInbound(c, e, target);
    case RetryWrite => RetryWriteAccounts(c, e);
    case RetryRead =>
      hide Inbound, TryReadFromDispatch;
      ReadFrame(c, e.(near := e.near.(reader := e.near.reader.Take())));
      InboundSame(c, e, Next(c, e, ev));
    case SendCompleted =>
      hide Inbound, TryReadFromDispatch;
      ReadFrame(c, e.(inFlight := false, sending := None));
      InboundSame(c, e, Next(c, e, ev));
    case Poll =>
      hide Inbound;
      PollWrites(c, e);
      InboundSame(c, e, Next(c, e, ev));
    case Arrive(_) => assert false;
    case _ =>
      hide Inbound, TryReadFromDispatch, TryWriteToDispatch;
      InboundSame(c, e, Next(c, e, ev));
  }

  lemma AccountedKept(c: Codec, e: End, ev: Event)
    requires Tokens(c, e) && Accounted(c, e) && Enabled(e, ev)
    ensures Accounted(c, Next(c, e, ev))
  {
    match ev
    case Arrive(m) => ArriveAccounts(c, e, m);
    case _ => OutboundKept(c, e, ev); InboundKept(c, e, ev);
  }

  // ---- a session against an arbitrary peer, over whole runs ----

  ghost predicate Runs(c: Codec, e: End, evs: seq<Event>, last: End)
    decreases |evs|
  {
    if evs == [] then last == e
    else Enabled(e, evs[0]) && Runs(c, Next(c, e, evs[0]), evs[1..], last)
  }

  lemma StartIsFine(c: Codec, capacity: nat, drains: bool, todo: seq<Frame>)
    requires capacity > 0
    ensures Tokens(c, Start(capacity, drains, todo)) && Accounted(c, Start(capacity, drains, todo))
  {
  }

  predicate SamePolicy(e: End, n: End) {
    && n.far.capacity == e.far.capacity && n.far.drains == e.far.drains
    && n.near.capacity == e.near.capacity && n.near.drains == e.near.drains
  }

  lemma ReadPolicy(c: Codec, e: End)
    requires e.cvt.Some?
    ensures SamePolicy(e, TryReadFromDispatch(c, e))
  {
  }

  lemma WritePolicy(e: End)
    ensures SamePolicy(e, TryWriteToDispatch(e))
  {
  }

  lemma PolicyKept(c: Codec, e: End, ev: Event)
    requires Enabled(e, ev)
    ensures SamePolicy(e, Next(c, e, ev))
  {
    match ev
    case Opened(target) =>
      hide TryReadFromDispatch;
      ReadPolicy(c, WsOpened(e.(status := Open), target));
    case RetryWrite =>
      hide TryWriteToDispatch;
      WritePolicy(e.(far := e.far.(writer := e.far.writer.Take())));
    case RetryRead =>
      hide TryReadFromDispatch;
      ReadPolicy(c, e.(near := e.near.(reader := e.near.reader.Take())));
    case SendCompleted =>
      hide TryReadFromDispatch;
      ReadPolicy(c, e.(inFlight := false, sending := None));
    case Arrive(m) =>
      hide TryWriteToDispatch;
      WritePolicy(e.(listening := false, heard := e.heard + [m], receiving := Decode(c, m)));
    case _ => hide TryReadFromDispatch, TryWriteToDispatch;
  }

  lemma {:induction false} RunKeeps(c: Codec, e: End, evs: seq<Event>, last: End)
    requires Tokens(c, e) && Accounted(c, e) && Runs(c, e, evs, last)
    ensures Tokens(c, last) && Accounted(c, last)
    ensures last.far.capacity == e.far.capacity
    decreases |evs|
  {
    hide Next, Tokens, Accounted;
    if evs == [] {
    } else {
      TokensKept(c, e, evs[0]);
      AccountedKept(c, e, evs[0]);
      PolicyKept(c, e, evs[0]);
      RunKeeps(c, Next(c, e, evs[0]), evs[1..], last);
    }
  }

  /** Whatever a peer sends, in any run: only the last message heard can have failed to decode, what
      was written to the dispatch channel is a prefix of the frames that decoded, and at most the
      channel's capacity plus one decoded frames are waiting. While the session is open exactly one
      thing will resume receiving and one will resume sending, and a frame arriving finds the
      receive slot empty. */
  lemma AnyPeer(c: Codec, capacity: nat, drains: bool, todo: seq<Frame>, evs: seq<Event>, e: End)
    requires capacity > 0 && Runs(c, Start(capacity, drains, todo), evs, e)
    ensures forall i | 0 <= i < |e.heard| - 1 :: Decode(c, e.heard[i]).Some?
    ensures e.far.Written() <= Decoded(c, e.heard)
    ensures |Decoded(c, e.heard)| - |e.far.passed| <= capacity + 1
    ensures e.status == Open ==> ReceiveTokens(e) == 1 && SendTokens(e) == 1
    ensures forall m :: Enabled(e, Arrive(m)) ==> e.receiving.None?
  {
    StartIsFine(c, capacity, drains, todo);
    RunKeeps(c, Start(capacity, drains, todo), evs, e);
    hide Runs, Decoded, Decode;
    FewWait(c, e);
  }

  /** What was heard and not yet consumed fits the channel and the slot. */
  lemma FewWait(c: Codec, e: End)
    requires Tokens(c, e) && Accounted(c, e)
    ensures e.far.Written() <= Decoded(c, e.heard)
    ensures |Decoded(c, e.heard)| - |e.far.passed| <= e.far.capacity + 1
  {
    hide Decoded, Decode;
    assert Decoded(c, e.heard) == e.far.Written() + Held(c, e);
  }

  lemma BadStep(c: Codec, e: End, ev: Event)
    requires Tokens(c, e) && Accounted(c, e) && !LastDecodes(c, e.heard) && Enabled(e, ev)
    ensures var n := Next(c, e, ev); n.heard == e.heard && n.far.Written() == e.far.Written()
  {
    hide Next;
    assert !ev.Arrive?;
    AccountedKept(c, e, ev);
    HeardOnlyGrows(c, e, ev);
    var n := Next(c, e, ev);
    assert e.heard + [] == e.heard;
    assert Held(c, e) == [] && Held(c, n) == [];
    assert e.far.Written() + [] == e.far.Written() && n.far.Written() + [] == n.far.Written();
  }

  /** Once its message failed to decode, a session hears and writes nothing more. */
  lemma {:induction false} BadMessageIsLast(c: Codec, e: End, evs: seq<Event>, last: End)
    requires Tokens(c, e) && Accounted(c, e) && !LastDecodes(c, e.heard) && Runs(c, e, evs, last)
    ensures last.heard == e.heard && last.far.Written() == e.far.Written()
    decreases |evs|
  {
    hide Next, Tokens, Accounted;
    if evs == [] {
    } else {
      TokensKept(c, e, evs[0]);
      AccountedKept(c, e, evs[0]);
      BadStep(c, e, evs[0]);
      BadMessageIsLast(c, Next(c, e, evs[0]), evs[1..], last);
    }
  }

  lemma HeardOnlyGrows(c: Codec, e: End, ev: Event)
    requires Enabled(e, ev)
    ensures Next(c, e, ev).heard == e.heard + if ev.Arrive? then [ev.m] else []
  {
    match ev
    case Opened(target) => ReadFrame(c, WsOpened(e.(status := Open), target));
    case RetryRead => ReadFrame(c, e.(near := e.near.(reader := e.near.reader.Take())));
    case SendCompleted => ReadFrame(c, e.(inFlight := false, sending := None));
    case RetryWrite => WriteFrame(e.(far := e.far.(writer := e.far.writer.Take())));
    case Arrive(m) =>
      var n := e.(listening := false, heard := e.heard + [m]);
      if Decode(c, m).Some? {
        WriteFrame(n.(receiving := Decode(c, m)));
      }
    case _ =>
  }

  /** After a close nothing is written to a dispatch channel any more, and it stays closed. */
  lemma {:induction false} NothingAfterClose(c: Codec, e: End, evs: seq<Event>, last: End)
    requires Tokens(c, e) && e.status == Ended && Runs(c, e, evs, last)
    ensures last.status == Ended && last.near.closed && last.far.closed
    ensures last.far.Written() == e.far.Written() && last.near.Written() == e.near.Written()
    ensures last.gone + last.out == e.gone + e.out && last.heard == e.heard
    decreases |evs|
  {
    if evs == [] {
    } else {
      TokensKept(c, e, evs[0]);
      EndedStep(c, e, evs[0]);
      NothingAfterClose(c, Next(c, e, evs[0]), evs[1..], last);
    }
  }

  lemma EndedStep(c: Codec, e: End, ev: Event)
    requires Tokens(c, e) && e.status == Ended && Enabled(e, ev)
    ensures var n := Next(c, e, ev);
      n.status == Ended && n.far.Written() == e.far.Written() && n.near.Written() == e.near.Written()
      && n.heard == e.heard && n.gone + n.out == e.gone + e.out
  {
  }

  // ---- a weight every event lowers ----

  function Bit(b: bool): nat { if b then 1 else 0 }

  function StatusWeight(s: Status): nat {
    match s case Connecting => 3 case Open => 2 case Closing => 1 case Ended => 0
  }

  /** Hops every outgoing frame has left, retries in hand, and what a close can still wake up. */
  function SendWeight(e: End): nat {
    10 * |e.todo| + 8 * |e.near.queue| + 6 * |e.out| + e.near.reader.tasks + e.near.writer.tasks
    + Bit(e.inFlight) + 3 * Bit(!e.near.closed)
  }

  function ReceiveWeight(e: End): nat {
    4 * Bit(e.receiving.Some?) + 2 * |e.far.queue| + e.far.reader.tasks + e.far.writer.tasks
    + 3 * Bit(!e.far.closed)
  }

  function Weight(e: End): nat { SendWeight(e) + ReceiveWeight(e) + StatusWeight(e.status) }

  lemma WriteWeighs(c: Codec, e: End)
    requires Receiving(c, e, 1)
    ensures Weight(TryWriteToDispatch(e)) <= Weight(e)
  {
    WriteFrame(e);
  }

  lemma ReadWeighs(c: Codec, e: End)
    requires Sending(e, 1) && e.cvt.Some?
    ensures Weight(TryReadFromDispatch(c, e)) <= Weight(e)
  {
    ReadFrame(c, e);
  }

  lemma PushWeighs(c: Codec, e: End)
    requires Tokens(c, e) && Enabled(e, Push)
    ensures Weight(Next(c, e, Push)) < Weight(e)
  {
    hide TryReadFromDispatch, TryWriteToDispatch;
    var (near, res) := e.near.(writer := e.near.writer.Take()).Write(e.todo[0]);
    var n := Next(c, e, Push);
    assert n == e.(near := n.near, todo := n.todo);
    assert ReceiveWeight(n) == ReceiveWeight(e);
    if res.Done? {
      assert |n.todo| == |e.todo| - 1 && |n.near.queue| == |e.near.queue| + 1;
      assert n.near.reader.tasks <= e.near.reader.tasks + 1;
      assert n.near.writer == e.near.writer && n.near.closed == e.near.closed;
    } else {
      assert n.todo == e.todo && n.near.queue == e.near.queue && n.near.reader == e.near.reader;
      assert n.near.writer.tasks < e.near.writer.tasks && n.near.closed == e.near.closed;
    }
  }

  lemma PollWeighs(c: Codec, e: End)
    requires Tokens(c, e) && Enabled(e, Poll)
    ensures Weight(Next(c, e, Poll)) < Weight(e)
  {
    hide TryReadFromDispatch, TryWriteToDispatch;
    var (far, res) := e.far.(reader := e.far.reader.Take()).Read();
    var n := Next(c, e, Poll);
    assert SendWeight(n) == SendWeight(e) && n.status == e.status && n.receiving == e.receiving;
    if res.Done? {
      assert |n.far.queue| == |e.far.queue| - 1 && n.far.writer.tasks <= e.far.writer.tasks + 1;
    } else {
      assert n.far.queue == e.far.queue && n.far.reader.tasks < e.far.reader.tasks;
    }
  }

  lemma ArriveWeighs(c: Codec, e: End, m: Message)
    requires Tokens(c, e) && Enabled(e, Arrive(m))
    ensures Weight(Next(c, e, Arrive(m))) < Weight(e) + 6
  {
    if Decode(c, m).Some? {
      WriteWeighs(c, e.(listening := false, heard := e.heard + [m], receiving := Decode(c, m)));
    }
  }

  lemma RetryWriteWeighs(c: Codec, e: End)
    requires Tokens(c, e) && Enabled(e, RetryWrite)
    ensures Weight(Next(c, e, RetryWrite)) < Weight(e)
  {
    hide TryWriteToDispatch;
    WriteWeighs(c, e.(far := e.far.(writer := e.far.writer.Take())));
  }

  lemma RetryReadWeighs(c: Codec, e: End)
    requires Tokens(c, e) && Enabled(e, RetryRead)
    ensures Weight(Next(c, e, RetryRead)) < Weight(e)
  {
    hide TryReadFromDispatch;
    ReadWeighs(c, e.(near := e.near.(reader := e.near.reader.Take())));
  }

  lemma OpenedWeighs(c: Codec, e: End, target: string)
    requires Tokens(c, e) && Enabled(e, Opened(target))
    ensures Weight(Next(c, e, Opened(target))) < Weight(e)
  {
    hide TryReadFromDispatch;
    ReadWeighs(c, WsOpened(e.(status := Open), target));
  }

  lemma SendCompletedWeighs(c: Codec, e: End)
    requires Tokens(c, e) && Enabled(e, SendCompleted)
    ensures Weight(Next(c, e, SendCompleted)) < Weight(e)
  {
    hide TryReadFromDispatch;
    ReadWeighs(c, e.(inFlight := false, sending := None));
  }

  lemma DepartWeighs(c: Codec, e: End)
    requires Enabled(e, Depart)
    ensures Weight(Next(c, e, Depart)) + 6 == Weight(e)
  {
  }

  lemma HangUpWeighs(c: Codec, e: End)
    requires Tokens(c, e) && Enabled(e, HangUp)
    ensures Weight(Next(c, e, HangUp)) < Weight(e)
  {
    hide TryReadFromDispatch, TryWriteToDispatch;
  }

  lemma SocketClosedWeighs(c: Codec, e: End)
    requires Tokens(c, e) && Enabled(e, SocketClosed)
    ensures Weight(Next(c, e, SocketClosed)) < Weight(e)
  {
    hide TryReadFromDispatch, TryWriteToDispatch;
  }

  /** Every event lowers the weight; handing a message over lowers it by 6 at one end and raises it
      by less at the other. */
  lemma WeightDrops(c: Codec, e: End, ev: Event)
    requires Tokens(c, e) && Enabled(e, ev)
    ensures !ev.Arrive? ==> Weight(Next(c, e, ev)) < Weight(e)
    ensures ev.Depart? ==> Weight(Next(c, e, ev)) + 6 == Weight(e)
    ensures ev.Arrive? ==> Weight(Next(c, e, ev)) < Weight(e) + 6
  {
    if ev.Depart? {
      DepartWeighs(c, e);
      return;
    }
    hide *;
    match ev
    case Opened(target) => OpenedWeighs(c, e, target);
    case Push => PushWeighs(c, e);
    case Poll => PollWeighs(c, e);
    case HangUp => HangUpWeighs(c, e);
    case RetryWrite => RetryWriteWeighs(c, e);
    case RetryRead => RetryReadWeighs(c, e);
    case Arrive(m) => ArriveWeighs(c, e, m);
    case SendCompleted => SendCompletedWeighs(c, e);
    case SocketClosed => SocketClosedWeighs(c, e);
  }
}
