/** Two sessions joined by a WebSocket, as a step system: any interleaving of the handlers of both
    ends, the local sides and the network. */
module Link {
  import opened Wrappers
  import opened Frames
  import opened Bridge

  datatype Who = A | B

  function Peer(w: Who): Who { if w == A then B else A }

  /** `window` messages fit between the ends: a send completes only once at most that many are
      waiting, so a receiver that stops reading holds the sender back. */
  datatype Link = Link(target: string, window: nat, a: End, b: End) {
    function Of(w: Who): End { if w == A then a else b }

    function With(w: Who, e: End): Link { if w == A then this.(a := e) else this.(b := e) }

    function Mode(): Mode { ModeOf(target) }
  }

  datatype Step = Local(w: Who, ev: Event) | Deliver(to: Who)

  predicate CanStep(s: Link, st: Step) {
    match st
    case Local(w, ev) =>
      && Enabled(s.Of(w), ev)
      && !ev.Arrive? && !ev.Depart?
      && (ev.Opened? ==> ev.target == s.target)
      && (ev.SendCompleted? ==> |s.Of(w).out| <= s.window)
    case Deliver(to) => s.Of(Peer(to)).out != [] && s.Of(to).listening
  }

  function Do(c: Codec, s: Link, st: Step): Link
    requires CanStep(s, st)
  {
    match st
    case Local(w, ev) => s.With(w, Next(c, s.Of(w), ev))
    case Deliver(to) =>
      var src := s.Of(Peer(to));
      s.With(Peer(to), Next(c, src, Depart)).With(to, Next(c, s.Of(to), Arrive(src.out[0])))
  }

  /** Steps that nobody outside chooses. A local side that hangs up is not one, nor is a socket that
      breaks; a socket closing because its end or the other one is closing is. */
  predicate Internal(s: Link, st: Step) {
    match st
    case Local(w, HangUp) => false
    case Local(w, SocketClosed) =>
      s.Of(w).status == Closing || s.Of(Peer(w)).status == Closing || s.Of(Peer(w)).status == Ended
    case _ => true
  }

  ghost predicate Runs(c: Codec, s: Link, sts: seq<Step>, last: Link)
    decreases |sts|
  {
    if sts == [] then last == s
    else CanStep(s, sts[0]) && Runs(c, Do(c, s, sts[0]), sts[1..], last)
  }

  ghost predicate InternalRun(c: Codec, s: Link, sts: seq<Step>, last: Link)
    decreases |sts|
  {
    if sts == [] then last == s
    else CanStep(s, sts[0]) && Internal(s, sts[0]) && InternalRun(c, Do(c, s, sts[0]), sts[1..], last)
  }

  /** No step is left that nobody outside chooses. */
  ghost predicate Quiet(s: Link) {
    forall st :: CanStep(s, st) ==> !Internal(s, st)
  }

  datatype Setup = Setup(target: string, window: nat, capacity: nat, drains: bool,
                         inputA: seq<Frame>, inputB: seq<Frame>) {
    function Input(w: Who): seq<Frame> { if w == A then inputA else inputB }

    function Begin(): Link {
      Link(target, window, Start(capacity, drains, inputA), Start(capacity, drains, inputB))
    }
  }

  // ---- the invariant ----

  ghost predicate EndFine(c: Codec, u: Setup, w: Who, e: End) {
    && Tokens(c, e) && Accounted(c, e)
    && (e.cvt.Some? ==> e.cvt.value == ModeOf(u.target))
    && (e.near.closed <==> e.far.closed)
    && e.near.Written() + e.todo == u.Input(w)
  }

  ghost predicate Fine(c: Codec, u: Setup, s: Link) {
    && s.target == u.target && s.window == u.window
    && EndFine(c, u, A, s.a) && EndFine(c, u, B, s.b)
    && s.a.gone == s.b.heard && s.b.gone == s.a.heard
  }

  /** The plain part of what a step keeps. */
  ghost predicate PlainStep(e: End, ev: Event, n: End)
    requires Enabled(e, ev)
  {
    && n.cvt == (if ev.Opened? then Some(ModeOf(ev.target)) else e.cvt)
    && ((e.near.closed <==> e.far.closed) ==> (n.near.closed <==> n.far.closed))
    && n.near.Written() + n.todo == e.near.Written() + e.todo
    && n.gone == e.gone + if ev.Depart? then [e.out[0]] else []
  }

  lemma EndKept(c: Codec, u: Setup, w: Who, e: End, ev: Event)
    requires EndFine(c, u, w, e) && Enabled(e, ev) && (ev.Opened? ==> ev.target == u.target)
    ensures var n := Next(c, e, ev);
      && EndFine(c, u, w, n)
      && n.gone == e.gone + (if ev.Depart? then [e.out[0]] else [])
      && n.heard == e.heard + if ev.Arrive? then [ev.m] else []
  {
    TokensKept(c, e, ev);
    AccountedKept(c, e, ev);
    HeardOnlyGrows(c, e, ev);
    PlainKept(c, e, ev);
    hide Next, Tokens, Accounted;
  }

  lemma PlainKept(c: Codec, e: End, ev: Event)
    requires Enabled(e, ev)
    ensures PlainStep(e, ev, Next(c, e, ev))
  {
    match ev
    case Opened(target) =>
      hide TryReadFromDispatch;
      ReadPlain(c, WsOpened(e.(status := Open), target));
    case RetryRead =>
      hide TryReadFromDispatch;
      ReadPlain(c, e.(near := e.near.(reader := e.near.reader.Take())));
    case SendCompleted =>
      hide TryReadFromDispatch;
      ReadPlain(c, e.(inFlight := false, sending := None));
    case RetryWrite =>
      hide TryWriteToDispatch;
      WritePlain(e.(far := e.far.(writer := e.far.writer.Take())));
    case Arrive(m) =>
      hide TryWriteToDispatch;
      WritePlain(e.(listening := false, heard := e.heard + [m], receiving := Decode(c, m)));
    case Push => hide *; PushPlain(c, e);
    case Poll => hide *; PollPlain(c, e);
    case _ => hide TryReadFromDispatch, TryWriteToDispatch;
  }

  lemma PushPlain(c: Codec, e: End)
    requires Enabled(e, Push)
    ensures PlainStep(e, Push, Next(c, e, Push))
  {
    hide TryReadFromDispatch, TryWriteToDispatch;
  }

  lemma PollPlain(c: Codec, e: End)
    requires Enabled(e, Poll)
    ensures PlainStep(e, Poll, Next(c, e, Poll))
  {
    hide TryReadFromDispatch, TryWriteToDispatch;
  }

  predicate SamePlain(e: End, n: End) {
    && n.cvt == e.cvt && n.near.closed == e.near.closed && n.far.closed == e.far.closed
    && n.near.Written() == e.near.Written() && n.todo == e.todo && n.gone == e.gone
  }

  lemma ReadPlain(c: Codec, e: End)
    requires e.cvt.Some?
    ensures SamePlain(e, TryReadFromDispatch(c, e))
  {
  }

  lemma WritePlain(e: End)
    ensures SamePlain(e, TryWriteToDispatch(e))
  {
  }

  lemma FineWith(c: Codec, u: Setup, s: Link, w: Who, e: End)
    requires Fine(c, u, s) && EndFine(c, u, w, e) && e.gone == s.Of(w).gone && e.heard == s.Of(w).heard
    ensures Fine(c, u, s.With(w, e))
  {
  }

  lemma FineWithBoth(c: Codec, u: Setup, s: Link, to: Who, src: End, dst: End)
    requires Fine(c, u, s) && EndFine(c, u, Peer(to), src) && EndFine(c, u, to, dst)
    requires src.gone == dst.heard && dst.gone == src.heard
    ensures Fine(c, u, s.With(Peer(to), src).With(to, dst))
  {
  }

  lemma FineKept(c: Codec, u: Setup, s: Link, st: Step)
    requires Fine(c, u, s) && CanStep(s, st)
    ensures Fine(c, u, Do(c, s, st))
  {
    hide Next, EndFine;
    match st
    case Local(w, ev) =>
      EndKept(c, u, w, s.Of(w), ev);
      FineWith(c, u, s, w, Next(c, s.Of(w), ev));
    case Deliver(to) =>
      var src, m := s.Of(Peer(to)), s.Of(Peer(to)).out[0];
      EndKept(c, u, Peer(to), src, Depart);
      EndKept(c, u, to, s.Of(to), Arrive(m));
      HeardOnlyGrows(c, s.Of(to), Arrive(m));
      FineWithBoth(c, u, s, to, Next(c, src, Depart), Next(c, s.Of(to), Arrive(m)));
  }

  lemma BeginFine(c: Codec, u: Setup)
    requires u.capacity > 0
    ensures Fine(c, u, u.Begin())
  {
    StartIsFine(c, u.capacity, u.drains, u.inputA);
    StartIsFine(c, u.capacity, u.drains, u.inputB);
  }

  lemma {:induction false} FineRun(c: Codec, u: Setup, s: Link, sts: seq<Step>, last: Link)
    requires Fine(c, u, s) && Runs(c, s, sts, last)
    ensures Fine(c, u, last)
    decreases |sts|
  {
    if sts == [] {
    } else {
      FineKept(c, u, s, sts[0]);
      FineRun(c, u, Do(c, s, sts[0]), sts[1..], last);
    }
  }

  // ---- no loss, no duplication, no reordering ----

  lemma {:induction false} DecodedConcat(c: Codec, x: seq<Message>, y: seq<Message>)
    ensures Decoded(c, x + y) == Decoded(c, x) + Decoded(c, y)
  {
    hide Decode;
    if y == [] {
      assert x + y == x;
    } else {
      DecodedConcat(c, x, y[..|y| - 1]);
      assert (x + y)[..|x + y| - 1] == x + y[..|y| - 1] && (x + y)[|x + y| - 1] == y[|y| - 1];
    }
  }

  lemma {:induction false} DecodedImage(c: Codec, mode: Mode, fs: seq<Frame>)
    requires Lawful(c)
    ensures Decoded(c, EncodeAll(c, mode, fs)) == ImageAll(mode, fs)
  {
    hide Decode, Encode, Image;
    if fs == [] {
    } else {
      var ms := EncodeAll(c, mode, fs);
      RoundTrip(c, mode, fs[|fs| - 1]);
      DecodedImage(c, mode, fs[..|fs| - 1]);
      assert ms[..|ms| - 1] == EncodeAll(c, mode, fs[..|fs| - 1]);
      assert ImageAll(mode, fs) == ImageAll(mode, fs[..|fs| - 1]) + [Image(mode, fs[|fs| - 1])];
    }
  }

  /** In every state of every run, in each direction: the frames the sending side pushed are those
      delivered at the other end, then those in its channel, the one it holds, those on the wire,
      those handed to a socket that had stopped sending, and those still in the near channel. */
  lemma Conservation(c: Codec, u: Setup, sts: seq<Step>, s: Link, w: Who)
    requires Lawful(c) && u.capacity > 0 && Runs(c, u.Begin(), sts, s)
    ensures var src, dst := s.Of(w), s.Of(Peer(w));
      ImageAll(s.Mode(), src.near.Written()) ==
        dst.far.passed + dst.far.queue + dst.receiving.ToSeq() + Decoded(c, src.out) + Decoded(c, src.lost)
        + ImageAll(s.Mode(), src.near.queue)
    ensures var src := s.Of(w); src.near.Written() + src.todo == u.Input(w)
    ensures s.Of(w).status == Open ==> s.Of(w).lost == []
  {
    BeginFine(c, u);
    FineRun(c, u, u.Begin(), sts, s);
    Balance(c, u, s, w);
  }

  lemma AllHeardDecode(c: Codec, u: Setup, s: Link, w: Who)
    requires Lawful(c) && Fine(c, u, s)
    ensures LastDecodes(c, s.Of(w).heard)
    ensures Decoded(c, s.Of(w).heard) == s.Of(w).far.Written() + s.Of(w).receiving.ToSeq()
  {
    var src, heard := s.Of(Peer(w)), s.Of(w).heard;
    if heard != [] {
      var i := |heard| - 1;
      var passed := src.near.passed;
      var ms := EncodeAll(c, s.Mode(), passed);
      assert ms == heard + src.out + src.lost;
      assert ms[i] == heard[i];
      RoundTrip(c, s.Mode(), passed[i]);
    }
  }

  lemma SentDecodes(c: Codec, u: Setup, s: Link, w: Who)
    requires Lawful(c) && Fine(c, u, s)
    ensures var src := s.Of(w);
      ImageAll(s.Mode(), src.near.passed)
        == Decoded(c, src.gone) + Decoded(c, src.out) + Decoded(c, src.lost)
  {
    var src := s.Of(w);
    assert EncodeAll(c, s.Mode(), src.near.passed) == src.gone + src.out + src.lost;
    DecodedImage(c, s.Mode(), src.near.passed);
    DecodedConcat(c, src.gone + src.out, src.lost);
    DecodedConcat(c, src.gone, src.out);
  }

  lemma ImageAllConcat(mode: Mode, x: seq<Frame>, y: seq<Frame>)
    ensures ImageAll(mode, x + y) == ImageAll(mode, x) + ImageAll(mode, y)
  {
  }

  lemma Balance(c: Codec, u: Setup, s: Link, w: Who)
    requires Lawful(c) && Fine(c, u, s)
    ensures var src, dst := s.Of(w), s.Of(Peer(w));
      ImageAll(s.Mode(), src.near.Written()) ==
        dst.far.passed + dst.far.queue + dst.receiving.ToSeq() + Decoded(c, src.out) + Decoded(c, src.lost)
        + ImageAll(s.Mode(), src.near.queue)
  {
    AllHeardDecode(c, u, s, Peer(w));
    SentDecodes(c, u, s, w);
    ImageAllConcat(s.Mode(), s.Of(w).near.passed, s.Of(w).near.queue);
  }

  lemma PassedIsPrefix(c: Codec, u: Setup, s: Link, w: Who)
    requires Lawful(c) && Fine(c, u, s)
    ensures s.Of(Peer(w)).far.passed <= ImageAll(s.Mode(), u.Input(w))
  {
    Balance(c, u, s, w);
    hide Decoded;
    ImageAllConcat(s.Mode(), s.Of(w).near.Written(), s.Of(w).todo);
  }

  /** The far end sees the very frames pushed exactly when the connection is CBOR or none of them
      carries a blob or a number that is not finite. */
  lemma ImageAllExact(mode: Mode, fs: seq<Frame>)
    ensures ImageAll(mode, fs) == fs <==> mode == Cbor || forall f | f in fs :: TextSafe(f.data)
  {
    forall i | 0 <= i < |fs| ensures Image(mode, fs[i]) == fs[i] <==> mode == Cbor || TextSafe(fs[i].data) {
      ImageExact(mode, fs[i]);
    }
    if ImageAll(mode, fs) == fs {
      forall i | 0 <= i < |fs| ensures Image(mode, fs[i]) == fs[i] {
        assert ImageAll(mode, fs)[i] == fs[i];
      }
    }
  }

  /** Delivery is a prefix of what was to be sent, through any close. */
  lemma DeliveredIsPrefix(c: Codec, u: Setup, sts: seq<Step>, s: Link, w: Who)
    requires Lawful(c) && u.capacity > 0 && Runs(c, u.Begin(), sts, s)
    ensures s.Of(Peer(w)).far.passed <= ImageAll(ModeOf(u.target), u.Input(w))
  {
    BeginFine(c, u);
    FineRun(c, u, u.Begin(), sts, s);
    PassedIsPrefix(c, u, s, w);
  }

  // ---- every run is finite ----

  function TotalWeight(s: Link): nat { Weight(s.a) + Weight(s.b) }

  lemma StepWeighs(c: Codec, u: Setup, s: Link, st: Step)
    requires Fine(c, u, s) && CanStep(s, st)
    ensures TotalWeight(Do(c, s, st)) < TotalWeight(s)
  {
    hide Next, Weight;
    match st
    case Local(w, ev) => WeightDrops(c, s.Of(w), ev);
    case Deliver(to) =>
      WeightDrops(c, s.Of(Peer(to)), Depart);
      WeightDrops(c, s.Of(to), Arrive(s.Of(Peer(to)).out[0]));
  }

  /** No run is longer than the weight it starts with, whatever is chosen and however it closes. */
  lemma {:induction false} RunsEnd(c: Codec, u: Setup, s: Link, sts: seq<Step>, last: Link)
    requires Fine(c, u, s) && Runs(c, s, sts, last)
    ensures |sts| + TotalWeight(last) <= TotalWeight(s)
    decreases |sts|
  {
    if sts == [] {
    } else {
      FineKept(c, u, s, sts[0]);
      StepWeighs(c, u, s, sts[0]);
      RunsEnd(c, u, Do(c, s, sts[0]), sts[1..], last);
    }
  }

  // ---- no lost wake-up ----

  lemma QuietStatus(c: Codec, u: Setup, s: Link)
    requires Fine(c, u, s) && Quiet(s)
    ensures (s.a.status == Open && s.b.status == Open) || (s.a.status == Ended && s.b.status == Ended)
  {
    assert !CanStep(s, Local(A, Opened(s.target))) && !CanStep(s, Local(B, Opened(s.target)));
    assert CanStep(s, Local(A, SocketClosed)) ==> !Internal(s, Local(A, SocketClosed));
    assert CanStep(s, Local(B, SocketClosed)) ==> !Internal(s, Local(B, SocketClosed));
  }

  lemma QuietDirection(c: Codec, u: Setup, s: Link, w: Who)
    requires Fine(c, u, s) && Quiet(s) && s.a.status == Open && s.b.status == Open
    ensures var src, dst := s.Of(w), s.Of(Peer(w));
      && src.todo == [] && src.near.queue == [] && src.out == [] && src.lost == []
      && !src.near.closed && src.near.reader.waiting
      && dst.receiving.None? && dst.listening
  {
    var src, dst := s.Of(w), s.Of(Peer(w));
    assert !CanStep(s, Local(Peer(w), Poll));
    assert !CanStep(s, Local(Peer(w), RetryWrite));
    assert !CanStep(s, Deliver(Peer(w)));
    assert dst.listening && src.out == [];
    assert !CanStep(s, Local(w, SendCompleted)) && !CanStep(s, Local(w, RetryRead));
    assert src.near.reader.waiting;
    assert !CanStep(s, Local(w, Push));
  }

  /** No lost wake-up: when nothing is left to do and the ends are open, every frame pushed at either
      side has been delivered at the other, and both sessions and both local sides wait for more. */
  lemma QuietOpenIsDone(c: Codec, u: Setup, s: Link, w: Who)
    requires Lawful(c) && Fine(c, u, s) && Quiet(s) && s.a.status == Open && s.b.status == Open
    ensures s.Of(Peer(w)).far.passed == ImageAll(s.Mode(), u.Input(w))
    ensures !s.Of(w).near.closed && !s.Of(w).far.closed
  {
    QuietDirection(c, u, s, w);
    QuietDirection(c, u, s, Peer(w));
    assert !CanStep(s, Local(Peer(w), Poll));
    Balance(c, u, s, w);
    var src, dst := s.Of(w), s.Of(Peer(w));
    assert dst.far.queue == [];
    assert src.near.Written() == u.Input(w);
  }

  /** When nothing is left to do and the ends are closed, all four dispatch channels are closed and
      no callback is registered or waiting to run. */
  lemma QuietEndedIsDone(c: Codec, u: Setup, s: Link, w: Who)
    requires Fine(c, u, s) && Quiet(s) && s.a.status == Ended && s.b.status == Ended
    ensures var e := s.Of(w);
      && e.near.closed && e.far.closed
      && e.near.reader.Tokens() == 0 && e.far.writer.Tokens() == 0 && e.far.reader.Tokens() == 0
      && (e.todo != [] ==> e.near.writer.Tokens() == 0)
  {
    assert !CanStep(s, Local(w, Poll)) && !CanStep(s, Local(w, Push));
    assert !CanStep(s, Local(w, RetryWrite)) && !CanStep(s, Local(w, RetryRead));
  }

  // ---- without a close, everything arrives ----

  ghost predicate CalmEnd(e: End) {
    (e.status == Connecting || e.status == Open) && !e.near.closed && !e.far.closed
  }

  lemma CalmEndKept(c: Codec, e: End, ev: Event)
    requires Tokens(c, e) && Enabled(e, ev) && CalmEnd(e)
    requires !ev.HangUp? && !ev.SocketClosed? && (ev.Arrive? ==> Decode(c, ev.m).Some?)
    ensures CalmEnd(Next(c, e, ev))
  {
    match ev
    case Push => hide TryReadFromDispatch, TryWriteToDispatch;
    case Poll => hide TryReadFromDispatch, TryWriteToDispatch;
    case Arrive(m) => hide TryReadFromDispatch;
    case _ =>
  }

  /** What one of our own sessions sent decodes. */
  lemma WireDecodes(c: Codec, u: Setup, s: Link, to: Who)
    requires Lawful(c) && Fine(c, u, s) && CanStep(s, Deliver(to))
    ensures Decode(c, s.Of(Peer(to)).out[0]).Some?
  {
    var src, m := s.Of(Peer(to)), s.Of(Peer(to)).out[0];
    var n := Do(c, s, Deliver(to));
    FineKept(c, u, s, Deliver(to));
    AllHeardDecode(c, u, n, to);
    hide Fine, Decoded, Decode;
    assert n.Of(to).heard == s.Of(to).heard + [m] by {
      HeardOnlyGrows(c, s.Of(to), Arrive(m));
      hide Next;
    }
  }

  lemma CalmDeliver(c: Codec, u: Setup, s: Link, to: Who)
    requires Lawful(c) && Fine(c, u, s) && CalmEnd(s.a) && CalmEnd(s.b) && CanStep(s, Deliver(to))
    ensures CalmEnd(Do(c, s, Deliver(to)).a) && CalmEnd(Do(c, s, Deliver(to)).b)
  {
    WireDecodes(c, u, s, to);
    hide Next, Tokens, Accounted, Decode, CalmEnd;
    CalmEndKept(c, s.Of(Peer(to)), Depart);
    CalmEndKept(c, s.Of(to), Arrive(s.Of(Peer(to)).out[0]));
  }

  lemma CalmKept(c: Codec, u: Setup, s: Link, st: Step)
    requires Lawful(c) && Fine(c, u, s) && CalmEnd(s.a) && CalmEnd(s.b) && CanStep(s, st) && Internal(s, st)
    ensures CalmEnd(Do(c, s, st).a) && CalmEnd(Do(c, s, st).b)
  {
    match st
    case Local(w, ev) =>
      assert !ev.SocketClosed? && !ev.HangUp?;
      CalmEndKept(c, s.Of(w), ev);
    case Deliver(to) => CalmDeliver(c, u, s, to);
  }

  lemma {:induction false} CalmRun(c: Codec, u: Setup, s: Link, sts: seq<Step>, last: Link)
    requires Lawful(c) && Fine(c, u, s) && CalmEnd(s.a) && CalmEnd(s.b) && InternalRun(c, s, sts, last)
    ensures Fine(c, u, last) && CalmEnd(last.a) && CalmEnd(last.b)
    ensures |sts| + TotalWeight(last) <= TotalWeight(s)
    decreases |sts|
  {
    if sts == [] {
    } else {
      FineKept(c, u, s, sts[0]);
      StepWeighs(c, u, s, sts[0]);
      CalmKept(c, u, s, sts[0]);
      CalmRun(c, u, Do(c, s, sts[0]), sts[1..], last);
    }
  }

  /** Delivery: with finite input and nobody closing, every run ends, within a bound known at the
      start, and when it cannot go on all frames of both sides have been delivered, in order. */
  lemma EverythingArrives(c: Codec, u: Setup, sts: seq<Step>, last: Link)
    requires Lawful(c) && u.capacity > 0 && InternalRun(c, u.Begin(), sts, last)
    ensures |sts| <= 22 + 10 * |u.inputA| + 10 * |u.inputB|
    ensures Quiet(last) ==>
      last.b.far.passed == ImageAll(ModeOf(u.target), u.inputA) &&
      last.a.far.passed == ImageAll(ModeOf(u.target), u.inputB)
  {
    BeginFine(c, u);
    CalmRun(c, u, u.Begin(), sts, last);
    if Quiet(last) {
      QuietStatus(c, u, last);
      QuietOpenIsDone(c, u, last, A);
      QuietOpenIsDone(c, u, last, B);
    }
  }

  // ---- what the target of the connection decides ----

  lemma EncodedKind(c: Codec, f: Frame)
    ensures Encode(c, Cbor, f).Binary?
    ensures Lawful(c) ==> Encode(c, Json, f).Text?
  {
    if Lawful(c) {
      assert c.dump(AcToJson(f)) != "";
    }
  }

  /** On a connection to "/cbor" every message that was ever sent is a binary one, and on any other every
      message is a text. */
  lemma MessageKinds(c: Codec, u: Setup, sts: seq<Step>, s: Link, w: Who)
    requires Lawful(c) && u.capacity > 0 && Runs(c, u.Begin(), sts, s)
    ensures u.target == "/cbor" ==> forall m | m in s.Of(w).gone + s.Of(w).out + s.Of(w).lost :: m.Binary?
    ensures u.target != "/cbor" ==> forall m | m in s.Of(w).gone + s.Of(w).out + s.Of(w).lost :: m.Text?
  {
    BeginFine(c, u);
    FineRun(c, u, u.Begin(), sts, s);
    hide Lawful, Runs, Encode;
    var e := s.Of(w);
    if e.cvt.Some? {
      var ms := EncodeAll(c, e.cvt.value, e.near.passed);
      forall i | 0 <= i < |ms| ensures if u.target == "/cbor" then ms[i].Binary? else ms[i].Text? {
        EncodedKind(c, e.near.passed[i]);
      }
    }
  }

  /** Over a connection to "/cbor", when nobody closes and nothing is left to do, each side has been given
      the very frames that the other side had to push. */
  lemma CborDeliversAll(c: Codec, u: Setup, sts: seq<Step>, last: Link)
    requires Lawful(c) && u.capacity > 0 && u.target == "/cbor" && InternalRun(c, u.Begin(), sts, last)
    requires Quiet(last)
    ensures last.b.far.passed == u.inputA && last.a.far.passed == u.inputB
  {
    EverythingArrives(c, u, sts, last);
    ImageAllExact(Cbor, u.inputA);
    ImageAllExact(Cbor, u.inputB);
    hide Quiet, InternalRun, Lawful;
  }

  // ---- a close reaches everything ----

  /** The local side of this end hung up, or its socket is closing or closed. */
  predicate GivenUp(e: End) {
    e.near.closed || e.status == Closing || e.status == Ended
  }

  lemma GivenUpStays(c: Codec, e: End, ev: Event)
    requires Enabled(e, ev) && GivenUp(e)
    ensures GivenUp(Next(c, e, ev))
  {
    match ev
    case Opened(target) => ReadPlain(c, WsOpened(e.(status := Open), target));
    case RetryRead =>
      var m := e.(near := e.near.(reader := e.near.reader.Take()));
      ReadPlain(c, m);
      ReadFrame(c, m);
    case SendCompleted =>
      var m := e.(inFlight := false, sending := None);
      ReadPlain(c, m);
      ReadFrame(c, m);
    case RetryWrite =>
      var m := e.(far := e.far.(writer := e.far.writer.Take()));
      WritePlain(m);
      WriteFrame(m);
    case Arrive(msg) =>
      var m := e.(listening := false, heard := e.heard + [msg], receiving := Decode(c, msg));
      WritePlain(m);
      WriteFrame(m);
    case _ =>
  }

  lemma GivenUpStep(c: Codec, s: Link, st: Step, w: Who)
    requires CanStep(s, st) && GivenUp(s.Of(w))
    ensures GivenUp(Do(c, s, st).Of(w))
  {
    match st
    case Local(x, ev) => if x == w { GivenUpStays(c, s.Of(w), ev); }
    case Deliver(to) =>
      if to == w {
        GivenUpStays(c, s.Of(w), Arrive(s.Of(Peer(to)).out[0]));
      } else {
        GivenUpStays(c, s.Of(w), Depart);
      }
  }

  /** A close at either end reaches the other through both sessions: any run that goes on from there
      is finite, and when nothing is left to do both sockets are closed, all four dispatch channels
      are closed, and no callback is registered or waiting to run. */
  lemma {:induction false} ClosePropagates(c: Codec, u: Setup, s: Link, w: Who, sts: seq<Step>, last: Link)
    requires Fine(c, u, s) && GivenUp(s.Of(w)) && Runs(c, s, sts, last)
    ensures |sts| + TotalWeight(last) <= TotalWeight(s)
    ensures Quiet(last) ==> forall x: Who :: var e := last.Of(x);
      && e.status == Ended && e.near.closed && e.far.closed
      && e.near.reader.Tokens() == 0 && e.far.writer.Tokens() == 0 && e.far.reader.Tokens() == 0
    decreases |sts|
  {
    if sts != [] {
      FineKept(c, u, s, sts[0]);
      StepWeighs(c, u, s, sts[0]);
      GivenUpStep(c, s, sts[0], w);
      ClosePropagates(c, u, Do(c, s, sts[0]), w, sts[1..], last);
    } else if Quiet(last) {
      QuietStatus(c, u, s);
      if s.a.status == Open {
        QuietDirection(c, u, s, w);
      }
      QuietEndedIsDone(c, u, s, A);
      QuietEndedIsDone(c, u, s, B);
    }
  }

  /** From every reachable state the internal steps alone lead to a state with none left. */
  lemma {:induction false} Settles(c: Codec, u: Setup, s: Link) returns (sts: seq<Step>, last: Link)
    requires Fine(c, u, s)
    ensures InternalRun(c, s, sts, last) && Quiet(last)
    decreases TotalWeight(s)
  {
    if Quiet(s) {
      return [], s;
    }
    var st :| CanStep(s, st) && Internal(s, st);
    FineKept(c, u, s, st);
    StepWeighs(c, u, s, st);
    sts, last := Settles(c, u, Do(c, s, st));
    sts := [st] + sts;
  }
}
