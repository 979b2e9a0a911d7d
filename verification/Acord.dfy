/** Client sessions and the asset manager they share, as a step system. A step is what one coroutine
    does between two suspensions: one push or one poll. */
module Acord {
  import opened Wrappers
  import opened Frames
  import opened Protocol
  import opened AssetMgr
  import opened FileSystem
  import opened Publication
  import opened Replies

  const STATE_FRAME := Frame("state", Str("acord"))
  const MGR_STATE_FRAME := Frame("state", Str("asset-mgr"))
  const OP_ASSETS := "make_assets_available"
  const OP_LOAD := "load_provider"
  const OP_MGR_ASSETS := "make-assets-available"

  // ---- frames ----

  function StrArray(xs: seq<string>): Dict {
    Arr(seq(|xs|, i requires 0 <= i < |xs| => Str(xs[i])))
  }

  /** The data as a list of strings, when it is one. */
  function Strings(d: Dict): Option<seq<string>> {
    if d.Arr? && forall x | x in d.items :: x.Str?
    then Some(seq(|d.items|, i requires 0 <= i < |d.items| => d.items[i].s)) else None
  }

  lemma StringsOfArray(xs: seq<string>)
    ensures Strings(StrArray(xs)) == Some(xs)
  {
    assert forall x | x in StrArray(xs).items :: x.Str?;
    assert Strings(StrArray(xs)).value == xs;
  }

  /** The strings at the start of a list. */
  function Leading(items: seq<Dict>): seq<string> {
    if items == [] || !items[0].Str? then [] else [items[0].s] + Leading(items[1..])
  }

  /** The addresses that the asset manager reads from a command's data, one by one, and whether reading
      throws after them: data of size 0 has none, a list has those before its first item that is no
      string, and anything else throws at once. */
  function Addresses(d: Dict): (seq<string>, bool) {
    match d
    case Null => ([], false)
    case Arr(items) => (Leading(items), |Leading(items)| < |items|)
    case Obj(fields) => ([], fields != [])
    case _ => ([], true)
  }

  lemma {:induction false} LeadingAll(items: seq<Dict>)
    ensures |Leading(items)| <= |items|
    ensures forall i | 0 <= i < |Leading(items)| :: items[i] == Str(Leading(items)[i])
    ensures |Leading(items)| < |items| ==> !items[|Leading(items)|].Str?
  {
    if items == [] || !items[0].Str? {
    } else {
      LeadingAll(items[1..]);
    }
  }

  lemma {:induction false} LeadingOfStrings(items: seq<Dict>)
    requires forall i | 0 <= i < |items| :: items[i].Str?
    ensures |Leading(items)| == |items| && forall i | 0 <= i < |items| :: items[i] == Str(Leading(items)[i])
  {
    if items == [] {
    } else {
      LeadingOfStrings(items[1..]);
    }
  }

  /** What is read from any data: a list is read to its end exactly if it is one of strings. */
  lemma AddressesExact(d: Dict)
    ensures d.Arr? ==> (!Addresses(d).1 <==> Strings(d).Some?)
    ensures !d.Arr? ==> Addresses(d).0 == [] && (!Addresses(d).1 <==> d == Null || d == Obj([]))
    ensures d.Arr? ==> |Addresses(d).0| <= |d.items|
    ensures d.Arr? ==> forall i | 0 <= i < |Addresses(d).0| :: d.items[i] == Str(Addresses(d).0[i])
    ensures d.Arr? && Addresses(d).1 ==> |Addresses(d).0| < |d.items| && !d.items[|Addresses(d).0|].Str?
    ensures Strings(d).Some? ==> Addresses(d) == (Strings(d).value, false)
  {
    if d.Arr? {
      LeadingAll(d.items);
      if Strings(d).Some? {
        LeadingOfStrings(d.items);
        assert Leading(d.items) == Strings(d).value;
      }
    }
  }

  lemma AddressesOfArray(xs: seq<string>)
    ensures Addresses(StrArray(xs)) == (xs, false)
  {
    StringsOfArray(xs);
    AddressesExact(StrArray(xs));
  }

  function ProviderName(d: Dict): Option<string> {
    if !d.Obj? then None else
    match Lookup(d.fields, "name")
    case Some(Str(name)) => Some(name)
    case _ => None
  }

  lemma StringsExact(d: Dict, xs: seq<string>)
    ensures Strings(d) == Some(xs) <==> IsList(d, xs)
    ensures Strings(d).Some? <==> AllStrings(d)
  {
    if AllStrings(d) {
      forall x | x in d.items ensures x.Str? {
        var i :| 0 <= i < |d.items| && d.items[i] == x;
      }
    }
    if IsList(d, xs) {
      assert AllStrings(d);
      assert Strings(d).value == xs;
    }
    if Strings(d).Some? {
      assert forall i | 0 <= i < |d.items| :: d.items[i] in d.items;
    }
  }

  lemma StrArrayExact(xs: seq<string>)
    ensures IsList(StrArray(xs), xs) && AllStrings(StrArray(xs))
  {
  }

  lemma ProviderNameExact(f: Frame, name: string)
    ensures f.op == OP_LOAD && ProviderName(f.data) == Some(name) <==> NamesProvider(f, name)
  {
    if f.data.Obj? {
      LookupAbsent(f.data.fields, "name");
      if !Absent(f.data.fields, "name") {
        var k := FirstExists(f.data.fields, "name");
        LookupAt(f.data.fields, "name", k);
        forall j: nat | FirstAt(f.data.fields, "name", j) ensures j == k {
        }
      }
    }
  }

  lemma LoadsExact(f: Frame)
    ensures Loads(f) <==> LoadsProvider(f)
  {
    if Loads(f) {
      ProviderNameExact(f, ProviderName(f.data).value);
    }
    if LoadsProvider(f) {
      var name :| NamesProvider(f, name);
      ProviderNameExact(f, name);
    }
  }

  lemma PlainReplyExact(req: Frame)
    requires req.op != OP_ASSETS
    ensures IsAnswer(req, PlainReply(req))
  {
    LoadsExact(req);
  }

  /** What a client's session asks the manager, and what the manager replies. */
  function AskFrame(urls: seq<string>): Frame { Frame(OP_MGR_ASSETS, StrArray(urls)) }

  function ResultFrame(paths: seq<string>): Frame { Frame("assets", StrArray(paths)) }

  function ErrorFrame(text: string): Frame { Frame("error", Str(text)) }

  // ---- state ----

  /** A request and, for one that asks for assets, the asset-manager session opened for it. */
  datatype Handled = Handled(req: Frame, session: Option<nat>)

  /** Why a session ended: the client closed its stream, sent data that is no list of addresses, or
      the inner session ended without a result. */
  datatype Cause = ClientLeft | Malformed | NoResult(session: nat)

  /** Where a client's coroutine is suspended. */
  datatype ClientPc =
    | Greet
    | Ready
    | AwaitState(h: Handled, urls: seq<string>)
    | Ask(h: Handled, urls: seq<string>)
    | AwaitResult(h: Handled, urls: seq<string>)
    | Give(h: Handled, reply: Frame)
    | Refuse(h: Handled, reply: Frame)
    | Accept(h: Handled, provider: string)
    | Provided(provider: string)
    | Over(pending: seq<Frame>, cause: Cause)

  /** `unread` is what the client has pushed and nobody polled; `answered` the requests replied to;
      `gone` says that the client has closed its stream. */
  datatype Client = Client(unread: seq<Frame>, sent: seq<Frame>, pc: ClientPc, answered: seq<Handled>, gone: bool)

  datatype MgrPc = MgrGreet | MgrPoll | MgrReply(reply: Frame) | MgrDone

  /** A frame polled from an inner session's channels, by the manager or from it. */
  datatype Polled = ToMgr(f: Frame) | FromMgr(f: Frame)

  /** One asset-manager session, with the frames in its two channels, the number of the batch it had
      served, and the frames polled at either end so far. */
  datatype Session = Session(owner: nat, urls: seq<string>, pc: MgrPc, toMgr: seq<Frame>, fromMgr: seq<Frame>,
                             closed: bool, batch: Option<nat>, log: seq<Polled>) {
    /** The client's end polls a frame. */
    function PollFrom(): Session
      requires fromMgr != []
    {
      this.(fromMgr := fromMgr[1..], log := log + [FromMgr(fromMgr[0])])
    }

    /** The manager polls a frame. */
    function PollTo(): Session
      requires toMgr != []
    {
      this.(toMgr := toMgr[1..], log := log + [ToMgr(toMgr[0])])
    }
  }

  datatype Batch = Batch(urls: seq<string>, paths: Option<seq<string>>)

  /** `served` lists the batches in the order in which the one strand served them. */
  datatype System = System(clients: seq<Client>, sessions: seq<Session>, mgr: Mgr, served: seq<Batch>)

  datatype Step = ClientStep(i: nat) | MgrStep(j: nat) | Leave(i: nat)

  // ---- the client's coroutine ----

  function Put(s: System, i: nat, c: Client): System
    requires i < |s.clients|
  {
    s.(clients := s.clients[i := c])
  }

  function PutSession(s: System, j: nat, x: Session): System
    requires j < |s.sessions|
  {
    s.(sessions := s.sessions[j := x])
  }

  /** The session a client's coroutine is talking to. */
  function Inner(pc: ClientPc): Option<nat> {
    match pc
    case AwaitState(h, _) => h.session
    case Ask(h, _) => h.session
    case AwaitResult(h, _) => h.session
    case Give(h, _) => h.session
    case _ => None
  }

  predicate InnerExists(s: System, c: Client) {
    Inner(c.pc).Some? ==> Inner(c.pc).value < |s.sessions|
  }

  predicate Pollable(x: Session) { x.fromMgr != [] || x.closed }

  /** A poll is possible once there is a frame, or the stream is closed. */
  predicate ClientCan(s: System, i: nat) {
    i < |s.clients| &&
    var c := s.clients[i];
    InnerExists(s, c) &&
    match c.pc
    case Ready => c.unread != [] || c.gone
    case AwaitState(h, _) => h.session.Some? && Pollable(s.sessions[h.session.value])
    case Ask(h, _) => h.session.Some?
    case AwaitResult(h, _) => h.session.Some? && Pollable(s.sessions[h.session.value])
    case Give(h, _) => h.session.Some?
    case Provided(_) => false
    case Over(_, _) => false
    case _ => true
  }

  /** Handles the request just polled. */
  function Begin(s: System, i: nat, c: Client, f: Frame): System
    requires i < |s.clients|
  {
    if f.op == OP_ASSETS then
      if Strings(f.data).None? then Put(s, i, c.(pc := Over([f], Malformed))) else
      var urls, j := Strings(f.data).value, |s.sessions|;
      Put(s.(sessions := s.sessions + [Session(i, urls, MgrGreet, [], [], false, None, [])]), i,
          c.(pc := AwaitState(Handled(f, Some(j)), urls)))
    else if f.op == OP_LOAD then
      var name := ProviderName(f.data);
      Put(s, i, c.(pc := if name.Some? then Accept(Handled(f, None), name.value)
                         else Refuse(Handled(f, None), ErrorFrame("bad parameters"))))
    else Put(s, i, c.(pc := Refuse(Handled(f, None), ErrorFrame("Unknown op: " + f.op))))
  }

  function ClientNext(s: System, i: nat): System
    requires ClientCan(s, i)
  {
    var c := s.clients[i];
    match c.pc
    case Greet =>
      Put(s, i, if c.gone then c.(pc := Over([], ClientLeft)) else c.(pc := Ready, sent := c.sent + [STATE_FRAME]))
    case Ready =>
      if c.gone then Put(s, i, c.(pc := Over([], ClientLeft)))
      else Begin(s, i, c.(unread := c.unread[1..]), c.unread[0])
    case AwaitState(h, urls) =>
      var j := h.session.value;
      var x := s.sessions[j];
      if x.fromMgr == [] then Put(s, i, c.(pc := Over([h.req], NoResult(j))))
      else Put(PutSession(s, j, x.PollFrom()), i, c.(pc := Ask(h, urls)))
    case Ask(h, urls) =>
      var j := h.session.value;
      var x := s.sessions[j];
      if x.closed then Put(s, i, c.(pc := Over([h.req], NoResult(j))))
      else Put(PutSession(s, j, x.(toMgr := x.toMgr + [AskFrame(urls)])), i,
               c.(pc := AwaitResult(h, urls)))
    case AwaitResult(h, urls) =>
      var j := h.session.value;
      var x := s.sessions[j];
      if x.fromMgr == [] then Put(s, i, c.(pc := Over([h.req], NoResult(j))))
      else Put(PutSession(s, j, x.PollFrom()), i,
               c.(pc := Give(h, x.fromMgr[0].(op := OP_ASSETS))))
    case Give(h, reply) =>
      // leaving the function that opened the inner session closes it
      var j := h.session.value;
      Put(PutSession(s, j, s.sessions[j].(closed := true)), i, Reply(c, h, reply))
    case Refuse(h, reply) => Put(s, i, Reply(c, h, reply))
    case Accept(h, name) =>
      Put(s, i, if c.gone then c.(pc := Over([h.req], ClientLeft))
                else Reply(c, h, Frame(OP_LOAD, Null)).(pc := Provided(name)))
  }

  function Reply(c: Client, h: Handled, reply: Frame): Client {
    if c.gone then c.(pc := Over([h.req], ClientLeft))
    else c.(pc := Ready, sent := c.sent + [reply], answered := c.answered + [h])
  }

  // ---- the asset manager's coroutine for one session ----

  predicate MgrCan(s: System, j: nat) {
    j < |s.sessions| &&
    var x := s.sessions[j];
    match x.pc
    case MgrPoll => x.closed || x.toMgr != []
    case MgrDone => false
    case _ => true
  }

  /** The reply to one command; none when it ends the session. */
  function CommandReply(web: Web, m: Mgr, cmd: Frame): (Mgr, Option<Frame>) {
    if cmd.op != OP_MGR_ASSETS then (m, Some(ErrorFrame("Unknown command")))
    else
      var (urls, throws) := Addresses(cmd.data);
      var (n, paths) := ServeAll(web, m, urls);
      (n, if throws || paths.None? then None else Some(ResultFrame(paths.value)))
  }

  /** A command is served whole before anything else runs on the strand. */
  function MgrNext(web: Web, s: System, j: nat): System
    requires MgrCan(s, j)
  {
    var x := s.sessions[j];
    if x.closed then PutSession(s, j, x.(pc := MgrDone)) else
    match x.pc
    case MgrGreet => PutSession(s, j, x.(pc := MgrPoll, fromMgr := x.fromMgr + [MGR_STATE_FRAME]))
    case MgrReply(reply) => PutSession(s, j, x.(pc := MgrPoll, fromMgr := x.fromMgr + [reply]))
    case MgrPoll =>
      var cmd, y := x.toMgr[0], x.PollTo();
      var (mgr, reply) := CommandReply(web, s.mgr, cmd);
      var z := if reply.Some? then y.(pc := MgrReply(reply.value)) else y.(pc := MgrDone, closed := true);
      if cmd.op != OP_MGR_ASSETS then PutSession(s, j, z) else
      var urls := Addresses(cmd.data).0;
      var paths := ServeAll(web, s.mgr, urls).1;
      PutSession(s.(mgr := mgr, served := s.served + [Batch(urls, paths)]), j, z.(batch := Some(|s.served|)))
    case MgrDone => s
  }

  predicate CanStep(s: System, st: Step) {
    match st
    case ClientStep(i) => ClientCan(s, i)
    case MgrStep(j) => MgrCan(s, j)
    case Leave(i) => i < |s.clients| && !s.clients[i].gone
  }

  function Do(web: Web, s: System, st: Step): System
    requires CanStep(s, st)
  {
    match st
    case ClientStep(i) => ClientNext(s, i)
    case MgrStep(j) => MgrNext(web, s, j)
    case Leave(i) => Put(s, i, s.clients[i].(gone := true))
  }

  ghost predicate Runs(web: Web, s: System, sts: seq<Step>, last: System)
    decreases |sts|
  {
    if sts == [] then last == s
    else CanStep(s, sts[0]) && Runs(web, Do(web, s, sts[0]), sts[1..], last)
  }

  function Start(inputs: seq<seq<Frame>>, mgr: Mgr): System {
    System(seq(|inputs|, i requires 0 <= i < |inputs| => Client(inputs[i], [], Greet, [], false)), [], mgr, [])
  }

  // ---- what holds of every session ----

  /** The result frame of the batch a session had served. */
  ghost predicate HasResult(s: System, x: Session, f: Frame) {
    && x.batch.Some? && x.batch.value < |s.served|
    && var b := s.served[x.batch.value];
       b.urls == x.urls && b.paths.Some? && f == ResultFrame(b.paths.value)
  }

  /** The batch a session had served killed it. */
  ghost predicate Died(s: System, x: Session) {
    x.batch.Some? && x.batch.value < |s.served|
    && s.served[x.batch.value].urls == x.urls && s.served[x.batch.value].paths.None?
  }

  /** The frames polled at the two ends are, as far as they go, the state, the command and the result. */
  ghost predicate LogFine(s: System, x: Session) {
    && |x.log| <= 3
    && (|x.log| >= 1 ==> x.log[0] == FromMgr(MGR_STATE_FRAME))
    && (|x.log| >= 2 <==> x.batch.Some?)
    && (|x.log| >= 2 ==> x.log[1] == ToMgr(AskFrame(x.urls)))
    && (|x.log| == 3 ==> x.log[2].FromMgr? && HasResult(s, x, x.log[2].f))
  }

  ghost predicate Idle(x: Session) { x.pc == MgrPoll && x.toMgr == [] && x.fromMgr == [] }

  /** An inner session follows its client's coroutine: state, command, result, and closed after. */
  ghost predicate SessionFine(s: System, x: Session, pc: ClientPc) {
    match pc
    case AwaitState(_, urls) =>
      && !x.closed && x.urls == urls && x.log == [] && x.toMgr == []
      && ((x.pc == MgrGreet && x.fromMgr == []) || (x.pc == MgrPoll && x.fromMgr == [MGR_STATE_FRAME]))
    case Ask(_, urls) => !x.closed && x.urls == urls && |x.log| == 1 && Idle(x)
    case AwaitResult(_, urls) =>
      && x.urls == urls && 1 <= |x.log| <= 2
      && (x.pc != MgrDone ==> !x.closed)
      && (x.pc == MgrPoll ==>
           || (x.batch.None? && x.fromMgr == [] && x.toMgr == [AskFrame(urls)])
           || (x.toMgr == [] && |x.fromMgr| == 1 && HasResult(s, x, x.fromMgr[0])))
      && x.pc != MgrGreet
      && (x.pc.MgrReply? ==> x.toMgr == [] && x.fromMgr == [] && HasResult(s, x, x.pc.reply))
      && (x.pc == MgrDone ==> x.closed && x.fromMgr == [] && x.toMgr == [] && Died(s, x))
    case Give(_, reply) => !x.closed && Idle(x) && WholeLog(x, reply)
    case _ => false
  }

  /** State, command and result were polled, and the reply is that result under the request's name. */
  ghost predicate WholeLog(x: Session, reply: Frame) {
    && reply.op == OP_ASSETS
    && x.log == [FromMgr(MGR_STATE_FRAME), ToMgr(AskFrame(x.urls)), FromMgr(reply.(op := "assets"))]
  }

  /** A session its client has left is closed, and empty. */
  ghost predicate Left(x: Session) {
    x.closed && x.toMgr == [] && x.fromMgr == [] && (x.pc == MgrPoll || x.pc == MgrDone)
  }

  ghost predicate SessionOk(s: System, j: nat)
    requires j < |s.sessions|
  {
    var x := s.sessions[j];
    x.owner < |s.clients| && LogFine(s, x) &&
    var pc := s.clients[x.owner].pc;
    if Inner(pc) == Some(j) then SessionFine(s, x, pc) else Left(x)
  }

  ghost predicate SessionsFine(s: System) {
    forall j | 0 <= j < |s.sessions| :: SessionOk(s, j)
  }

  /** Two sessions never share a batch. */
  ghost predicate BatchesApart(s: System) {
    && (forall j | 0 <= j < |s.sessions| && s.sessions[j].batch.Some? :: s.sessions[j].batch.value < |s.served|)
    && (forall j, k | 0 <= j < k < |s.sessions| && s.sessions[j].batch.Some? && s.sessions[k].batch.Some? ::
          s.sessions[j].batch != s.sessions[k].batch)
  }

  // ---- what holds of every client ----

  predicate Loads(f: Frame) { f.op == OP_LOAD && ProviderName(f.data).Some? }

  /** The reply to a request that asks for no assets. */
  function PlainReply(req: Frame): Frame {
    if req.op != OP_LOAD then ErrorFrame("Unknown op: " + req.op)
    else if Loads(req) then Frame(OP_LOAD, Null)
    else ErrorFrame("bad parameters")
  }

  /** The reply a request gets; one that asks for assets gets its own session's result. */
  ghost predicate IsReply(s: System, i: nat, h: Handled, f: Frame) {
    if h.req.op == OP_ASSETS then
      && Strings(h.req.data).Some? && h.session.Some? && h.session.value < |s.sessions|
      && var x := s.sessions[h.session.value];
         x.owner == i && x.urls == Strings(h.req.data).value
         && HasResult(s, x, f.(op := "assets")) && WholeLog(x, f)
    else h.session.None? && f == PlainReply(h.req)
  }

  function Requests(hs: seq<Handled>): seq<Frame> { seq(|hs|, k requires 0 <= k < |hs| => hs[k].req) }

  /** The request being handled, or given up. */
  function Current(pc: ClientPc): seq<Frame> {
    match pc
    case AwaitState(h, _) => [h.req]
    case Ask(h, _) => [h.req]
    case AwaitResult(h, _) => [h.req]
    case Give(h, _) => [h.req]
    case Refuse(h, _) => [h.req]
    case Accept(h, _) => [h.req]
    case Over(pending, _) => pending
    case _ => []
  }

  ghost predicate PcFine(s: System, i: nat, pc: ClientPc) {
    match pc
    case AwaitState(h, urls) => OwnSession(s, i, h) && Strings(h.req.data) == Some(urls)
    case Ask(h, urls) => OwnSession(s, i, h) && Strings(h.req.data) == Some(urls)
    case AwaitResult(h, urls) => OwnSession(s, i, h) && Strings(h.req.data) == Some(urls)
    case Give(h, reply) => OwnSession(s, i, h) && IsReply(s, i, h, reply)
    case Refuse(h, reply) => h.req.op != OP_ASSETS && !Loads(h.req) && IsReply(s, i, h, reply)
    case Accept(h, name) => h.req.op == OP_LOAD && ProviderName(h.req.data) == Some(name) && h.session.None?
    case Over(pending, Malformed) =>
      |pending| == 1 && pending[0].op == OP_ASSETS && Strings(pending[0].data).None?
    case Over(pending, NoResult(j)) =>
      |pending| == 1 && OwnSession(s, i, Handled(pending[0], Some(j))) && Died(s, s.sessions[j])
    case _ => true
  }

  ghost predicate OwnSession(s: System, i: nat, h: Handled) {
    && h.req.op == OP_ASSETS && h.session.Some? && h.session.value < |s.sessions|
    && s.sessions[h.session.value].owner == i
    && Some(s.sessions[h.session.value].urls) == Strings(h.req.data)
  }

  /** The state frame first, then one reply a request, in order; a loaded provider ends it. */
  ghost predicate Answers(s: System, i: nat, c: Client) {
    && (c.pc.Over? && c.pc.cause == ClientLeft ==> c.gone)
    && (c.pc == Greet ==> c.sent == [])
    && (c.sent == [] ==> c.answered == [] && (c.pc == Greet || c.pc == Over([], ClientLeft)))
    && (c.sent != [] ==>
          && |c.sent| == |c.answered| + 1 && c.sent[0] == STATE_FRAME
          && forall k | 0 <= k < |c.answered| :: IsReply(s, i, c.answered[k], c.sent[k + 1]))
    && (forall k | 0 <= k < |c.answered| :: Loads(c.answered[k].req) ==> c.pc.Provided? && k == |c.answered| - 1)
    && (c.pc.Provided? ==> c.answered != [] && var f := c.answered[|c.answered| - 1].req;
          Loads(f) && ProviderName(f.data) == Some(c.pc.provider))
  }

  /** No two requests of a client have one inner session, answered or not. */
  ghost predicate SessionsOnce(c: Client) {
    && (forall k, l | 0 <= k < l < |c.answered| && c.answered[k].session.Some? ::
          c.answered[k].session != c.answered[l].session)
    && (Inner(c.pc).Some? ==> forall k | 0 <= k < |c.answered| :: c.answered[k].session != Inner(c.pc))
  }

  ghost predicate ClientFine(s: System, i: nat, c: Client, input: seq<Frame>) {
    && PcFine(s, i, c.pc) && Answers(s, i, c) && SessionsOnce(c)
    && Requests(c.answered) + Current(c.pc) + c.unread == input
  }

  ghost predicate ClientsFine(s: System, inputs: seq<seq<Frame>>) {
    && |s.clients| == |inputs|
    && forall i | 0 <= i < |s.clients| :: ClientFine(s, i, s.clients[i], inputs[i])
  }

  function UrlsOf(bs: seq<Batch>): seq<seq<string>> { seq(|bs|, k requires 0 <= k < |bs| => bs[k].urls) }

  function PathsOf(bs: seq<Batch>): seq<Option<seq<string>>> { seq(|bs|, k requires 0 <= k < |bs| => bs[k].paths) }

  /** The shared manager is what serving the batches one after another makes of it. */
  ghost predicate Linear(web: Web, first: Mgr, s: System) {
    ServeBatches(web, first, UrlsOf(s.served)) == (s.mgr, PathsOf(s.served))
  }

  /** Some client's request asks for exactly these addresses. */
  ghost predicate Requested(inputs: seq<seq<Frame>>, urls: seq<string>) {
    exists i, k | 0 <= i < |inputs| && 0 <= k < |inputs[i]| ::
      inputs[i][k].op == OP_ASSETS && Strings(inputs[i][k].data) == Some(urls)
  }

  ghost predicate BatchesRequested(inputs: seq<seq<Frame>>, s: System) {
    forall b | 0 <= b < |s.served| :: Requested(inputs, s.served[b].urls)
  }

  ghost predicate Fine(web: Web, first: Mgr, inputs: seq<seq<Frame>>, s: System) {
    && SessionsFine(s) && BatchesApart(s) && ClientsFine(s, inputs) && Linear(web, first, s)
    && BatchesRequested(inputs, s)
  }

  // ---- nothing recorded is ever taken back ----

  /** Owners, addresses and served batches stay. */
  ghost predicate Grows(s: System, n: System) {
    && |s.sessions| <= |n.sessions| && |s.clients| == |n.clients| && s.served <= n.served
    && forall j | 0 <= j < |s.sessions| ::
         && n.sessions[j].owner == s.sessions[j].owner && n.sessions[j].urls == s.sessions[j].urls
         && (s.sessions[j].batch.Some? ==> n.sessions[j].batch == s.sessions[j].batch)
         && s.sessions[j].log <= n.sessions[j].log
         && (|s.sessions[j].log| >= 3 ==> n.sessions[j].log == s.sessions[j].log)
  }

  lemma ClientGrows(s: System, i: nat)
    requires SessionsFine(s) && ClientCan(s, i) && PcFine(s, i, s.clients[i].pc)
    ensures Grows(s, ClientNext(s, i))
  {
    hide StrArray, Strings, ProviderName;
    if Inner(s.clients[i].pc).Some? {
      assert SessionOk(s, Inner(s.clients[i].pc).value);
    }
  }

  lemma MgrGrows(web: Web, s: System, j: nat)
    requires SessionsFine(s) && MgrCan(s, j)
    ensures Grows(s, MgrNext(web, s, j))
  {
    hide ServeAll, StrArray, Addresses;
    assert SessionOk(s, j);
  }

  lemma StepGrows(web: Web, s: System, st: Step)
    requires SessionsFine(s) && CanStep(s, st)
    requires st.ClientStep? ==> PcFine(s, st.i, s.clients[st.i].pc)
    ensures Grows(s, Do(web, s, st))
  {
    hide SessionsFine, PcFine, ClientNext, MgrNext;
    match st
    case ClientStep(i) => ClientGrows(s, i);
    case MgrStep(j) => MgrGrows(web, s, j);
    case Leave(_) =>
  }

  lemma ReplyStays(s: System, n: System, i: nat, h: Handled, f: Frame)
    requires Grows(s, n) && IsReply(s, i, h, f)
    ensures IsReply(n, i, h, f)
  {
  }

  lemma ClientStays(s: System, n: System, i: nat, c: Client, input: seq<Frame>)
    requires Grows(s, n) && ClientFine(s, i, c, input)
    ensures ClientFine(n, i, c, input)
  {
    forall h, f | IsReply(s, i, h, f) ensures IsReply(n, i, h, f) {
      ReplyStays(s, n, i, h, f);
    }
  }

  // ---- every step keeps it ----

  /** Another client's coroutine, and the sessions of others, are as they were. */
  ghost predicate OnlyClient(s: System, n: System, i: nat) {
    && |s.clients| == |n.clients| && i < |s.clients|
    && forall k | 0 <= k < |s.clients| && k != i :: n.clients[k] == s.clients[k]
  }

  lemma ClientsKept(s: System, n: System, i: nat, inputs: seq<seq<Frame>>)
    requires ClientsFine(s, inputs) && Grows(s, n) && OnlyClient(s, n, i)
    requires ClientFine(n, i, n.clients[i], inputs[i])
    ensures ClientsFine(n, inputs)
  {
    forall k | 0 <= k < |n.clients| ensures ClientFine(n, k, n.clients[k], inputs[k]) {
      if k != i {
        ClientStays(s, n, k, s.clients[k], inputs[k]);
      }
    }
  }

  lemma ReplyAnswers(s: System, i: nat, c: Client, h: Handled, reply: Frame)
    requires PcFine(s, i, c.pc) && Answers(s, i, c) && IsReply(s, i, h, reply) && !Loads(h.req)
    requires Current(c.pc) == [h.req] && !c.pc.Over?
    ensures Answers(s, i, Reply(c, h, reply))
  {
    hide IsReply, OwnSession, Loads, PcFine;
  }

  lemma ReplyOnce(c: Client, h: Handled, reply: Frame)
    requires SessionsOnce(c) && (h.session.Some? ==> h.session == Inner(c.pc))
    ensures SessionsOnce(Reply(c, h, reply))
  {
  }

  lemma ReplyFine(s: System, n: System, i: nat, c: Client, h: Handled, reply: Frame, input: seq<Frame>)
    requires Grows(s, n) && ClientFine(s, i, c, input) && IsReply(s, i, h, reply) && !Loads(h.req)
    requires Current(c.pc) == [h.req] && !c.pc.Over? && (h.session.Some? ==> h.session == Inner(c.pc))
    ensures ClientFine(n, i, Reply(c, h, reply), input)
  {
    ClientStays(s, n, i, c, input);
    ReplyStays(s, n, i, h, reply);
    ReplyAnswers(n, i, c, h, reply);
    ReplyOnce(c, h, reply);
    hide Answers, SessionsOnce, IsReply, Grows, OwnSession;
    var d := Reply(c, h, reply);
    if !c.gone {
      assert Requests(d.answered) == Requests(c.answered) + [h.req];
    }
  }

  /** A move within the handling of a request. */
  lemma MoveFine(s: System, n: System, i: nat, c: Client, pc: ClientPc, input: seq<Frame>)
    requires Grows(s, n) && ClientFine(s, i, c, input) && PcFine(n, i, pc)
    requires Current(pc) == Current(c.pc) && Current(c.pc) != [] && !c.pc.Over?
    requires Inner(pc).Some? ==> Inner(pc) == Inner(c.pc)
    requires pc.Over? && pc.cause == ClientLeft ==> c.gone
    ensures ClientFine(n, i, c.(pc := pc), input)
  {
    ClientStays(s, n, i, c, input);
  }

  /** Taking the next request. */
  lemma BeginFine(s: System, n: System, i: nat, c: Client, pc: ClientPc, input: seq<Frame>)
    requires Grows(s, n) && ClientFine(s, i, c, input) && PcFine(n, i, pc)
    requires c.pc == Ready && c.unread != [] && Current(pc) == [c.unread[0]]
    requires Inner(pc).Some? ==> Inner(pc).value >= |s.sessions|
    requires pc.Over? ==> pc.cause != ClientLeft
    ensures ClientFine(n, i, c.(pc := pc, unread := c.unread[1..]), input)
  {
    ClientStays(s, n, i, c, input);
    assert c.unread == [c.unread[0]] + c.unread[1..];
  }

  lemma AcceptFine(s: System, i: nat, c: Client, h: Handled, name: string, input: seq<Frame>)
    requires ClientFine(s, i, c, input) && c.pc == Accept(h, name) && !c.gone
    ensures ClientFine(s, i, Reply(c, h, Frame(OP_LOAD, Null)).(pc := Provided(name)), input)
  {
    var d := Reply(c, h, Frame(OP_LOAD, Null));
    assert IsReply(s, i, h, Frame(OP_LOAD, Null));
    assert Requests(d.answered) == Requests(c.answered) + [h.req];
  }

  lemma ReadyStepFine(web: Web, s: System, i: nat, input: seq<Frame>)
    requires SessionsFine(s) && ClientCan(s, i) && ClientFine(s, i, s.clients[i], input)
    requires s.clients[i].pc == Ready && !s.clients[i].gone
    ensures ClientFine(ClientNext(s, i), i, ClientNext(s, i).clients[i], input)
  {
    var c, n := s.clients[i], ClientNext(s, i);
    StepGrows(web, s, ClientStep(i));
    BeginFine(s, n, i, c, n.clients[i].pc, input);
  }

  /** Talking to the inner session; its result becomes the reply, under the name of the request. */
  lemma TalkFine(web: Web, s: System, i: nat, input: seq<Frame>)
    requires SessionsFine(s) && ClientCan(s, i) && ClientFine(s, i, s.clients[i], input)
    requires var pc := s.clients[i].pc; pc.AwaitState? || pc.Ask? || pc.AwaitResult?
    ensures ClientFine(ClientNext(s, i), i, ClientNext(s, i).clients[i], input)
  {
    var c, n := s.clients[i], ClientNext(s, i);
    StepGrows(web, s, ClientStep(i));
    var x := s.sessions[c.pc.h.session.value];
    assert SessionOk(s, c.pc.h.session.value);
    if c.pc.AwaitResult? && x.fromMgr != [] {
      assert HasResult(s, x, x.fromMgr[0]);
    }
    MoveFine(s, n, i, c, n.clients[i].pc, input);
  }

  lemma AcceptStepFine(web: Web, s: System, i: nat, input: seq<Frame>)
    requires SessionsFine(s) && ClientCan(s, i) && ClientFine(s, i, s.clients[i], input) && s.clients[i].pc.Accept?
    ensures ClientFine(ClientNext(s, i), i, ClientNext(s, i).clients[i], input)
  {
    var c, n := s.clients[i], ClientNext(s, i);
    StepGrows(web, s, ClientStep(i));
    if c.gone {
      MoveFine(s, n, i, c, n.clients[i].pc, input);
    } else {
      AcceptFine(s, i, c, c.pc.h, c.pc.provider, input);
      ClientStays(s, n, i, n.clients[i], input);
    }
  }

  lemma ClientStepFine(web: Web, s: System, i: nat, input: seq<Frame>)
    requires SessionsFine(s) && ClientCan(s, i) && ClientFine(s, i, s.clients[i], input)
    ensures ClientFine(ClientNext(s, i), i, ClientNext(s, i).clients[i], input)
  {
    var c := s.clients[i];
    if c.pc.AwaitState? || c.pc.Ask? || c.pc.AwaitResult? {
      TalkFine(web, s, i, input);
    } else if c.pc == Ready && !c.gone {
      ReadyStepFine(web, s, i, input);
    } else if c.pc.Accept? {
      AcceptStepFine(web, s, i, input);
    } else {
      OtherStepFine(web, s, i, input);
    }
  }

  lemma OtherStepFine(web: Web, s: System, i: nat, input: seq<Frame>)
    requires SessionsFine(s) && ClientCan(s, i) && ClientFine(s, i, s.clients[i], input)
    requires var c := s.clients[i]; c.pc == Greet || (c.pc == Ready && c.gone) || c.pc.Give? || c.pc.Refuse?
    ensures ClientFine(ClientNext(s, i), i, ClientNext(s, i).clients[i], input)
  {
    var c, n := s.clients[i], ClientNext(s, i);
    StepGrows(web, s, ClientStep(i));
    match c.pc
    case Give(h, reply) => ReplyFine(s, n, i, c, h, reply, input);
    case Refuse(h, reply) => ReplyFine(s, n, i, c, h, reply, input);
    case _ => ClientStays(s, n, i, c, input);
  }

  /** The one client that acted is on no session but j, before and after, and no other session changed. */
  ghost predicate OnlySession(s: System, n: System, i: nat, j: nat) {
    && OnlyClient(s, n, i) && j < |n.sessions| && |n.sessions| <= |s.sessions| + 1 && Grows(s, n)
    && (|s.sessions| < |n.sessions| ==> j == |s.sessions|)
    && (forall k | 0 <= k < |s.sessions| && k != j :: n.sessions[k] == s.sessions[k])
    && (Inner(s.clients[i].pc) == None || Inner(s.clients[i].pc) == Some(j))
    && (Inner(n.clients[i].pc) == None || Inner(n.clients[i].pc) == Some(j))
  }

  lemma SessionsKept(s: System, n: System, i: nat, j: nat)
    requires SessionsFine(s) && OnlySession(s, n, i, j) && SessionOk(n, j)
    ensures SessionsFine(n)
  {
    forall k | 0 <= k < |n.sessions| && k != j ensures SessionOk(n, k) {
      var x := s.sessions[k];
      assert SessionOk(s, k);
      if Inner(s.clients[x.owner].pc) == Some(k) {
        FineStays(s, n, x, s.clients[x.owner].pc);
      }
    }
  }

  lemma FineStays(s: System, n: System, x: Session, pc: ClientPc)
    requires SessionFine(s, x, pc) && s.served <= n.served
    ensures SessionFine(n, x, pc)
  {
  }

  /** Only the client acted: no session is entered or left. */
  lemma NoSessionMoved(s: System, n: System, i: nat)
    requires SessionsFine(s) && OnlyClient(s, n, i) && n.sessions == s.sessions && n.served == s.served
    requires Inner(s.clients[i].pc) == None && Inner(n.clients[i].pc) == None
    ensures SessionsFine(n)
  {
    forall k | 0 <= k < |n.sessions| ensures SessionOk(n, k) {
      assert SessionOk(s, k);
      var x := s.sessions[k];
      if Inner(s.clients[x.owner].pc) == Some(k) {
        FineStays(s, n, x, s.clients[x.owner].pc);
      }
    }
  }

  lemma ClientActs(s: System, i: nat)
    requires ClientCan(s, i)
    ensures OnlyClient(s, ClientNext(s, i), i)
    ensures ClientNext(s, i).served == s.served && ClientNext(s, i).mgr == s.mgr
  {
  }

  lemma TalkKeepsSessions(web: Web, s: System, i: nat, input: seq<Frame>)
    requires SessionsFine(s) && ClientCan(s, i) && PcFine(s, i, s.clients[i].pc)
    requires Inner(s.clients[i].pc).Some?
    ensures SessionsFine(ClientNext(s, i))
  {
    var pc, n := s.clients[i].pc, ClientNext(s, i);
    var j := Inner(pc).value;
    StepGrows(web, s, ClientStep(i));
    ClientActs(s, i);
    assert SessionOk(s, j);
    assert SessionOk(n, j);
    SessionsKept(s, n, i, j);
  }

  lemma OpenKeepsSessions(web: Web, s: System, i: nat)
    requires SessionsFine(s) && ClientCan(s, i) && s.clients[i].pc == Ready
    ensures SessionsFine(ClientNext(s, i))
  {
    var n := ClientNext(s, i);
    StepGrows(web, s, ClientStep(i));
    ClientActs(s, i);
    if |n.sessions| > |s.sessions| {
      assert SessionOk(n, |s.sessions|);
      SessionsKept(s, n, i, |s.sessions|);
    } else {
      NoSessionMoved(s, n, i);
    }
  }

  lemma ClientKeepsSessions(web: Web, s: System, i: nat, input: seq<Frame>)
    requires SessionsFine(s) && ClientCan(s, i) && ClientFine(s, i, s.clients[i], input)
    ensures SessionsFine(ClientNext(s, i))
  {
    if s.clients[i].pc == Ready {
      OpenKeepsSessions(web, s, i);
    } else if Inner(s.clients[i].pc).Some? {
      TalkKeepsSessions(web, s, i, input);
    } else {
      ClientActs(s, i);
      NoSessionMoved(s, ClientNext(s, i), i);
    }
  }

  lemma MgrLocal(web: Web, s: System, j: nat)
    requires SessionsFine(s) && MgrCan(s, j)
    ensures var n := MgrNext(web, s, j);
      && n.clients == s.clients && |n.sessions| == |s.sessions| && n.sessions[j].owner == s.sessions[j].owner
      && (forall k | 0 <= k < |s.sessions| && k != j :: n.sessions[k] == s.sessions[k])
  {
  }

  lemma MgrSessionOk(web: Web, s: System, j: nat)
    requires SessionsFine(s) && MgrCan(s, j)
    ensures SessionOk(MgrNext(web, s, j), j)
  {
    var x, n := s.sessions[j], MgrNext(web, s, j);
    assert SessionOk(s, j);
    StepGrows(web, s, MgrStep(j));
    if !x.closed && x.pc == MgrPoll {
      AddressesOfArray(x.urls);
    }
  }

  lemma MgrKeepsSessions(web: Web, s: System, j: nat)
    requires SessionsFine(s) && MgrCan(s, j)
    ensures SessionsFine(MgrNext(web, s, j))
  {
    var n := MgrNext(web, s, j);
    MgrLocal(web, s, j);
    MgrSessionOk(web, s, j);
    StepGrows(web, s, MgrStep(j));
    forall k | 0 <= k < |n.sessions| && k != j ensures SessionOk(n, k) {
      assert SessionOk(s, k);
      var x := s.sessions[k];
      if Inner(s.clients[x.owner].pc) == Some(k) {
        FineStays(s, n, x, s.clients[x.owner].pc);
      }
    }
  }

  /** A step of the manager serves at most one batch more, by a session that had none. */
  lemma MgrLinear(web: Web, first: Mgr, s: System, j: nat)
    requires Linear(web, first, s) && MgrCan(s, j)
    ensures Linear(web, first, MgrNext(web, s, j))
  {
    hide StrArray;
    var n := MgrNext(web, s, j);
    if n.served != s.served {
      var b := n.served[|s.served|];
      assert n.served == s.served + [b];
      assert UrlsOf(n.served)[..|s.served|] == UrlsOf(s.served);
      assert PathsOf(n.served) == PathsOf(s.served) + [b.paths];
    }
  }

  lemma MgrBatches(web: Web, s: System, j: nat)
    requires SessionsFine(s) && BatchesApart(s) && MgrCan(s, j)
    ensures BatchesApart(MgrNext(web, s, j))
  {
    hide ServeAll, StrArray;
    assert SessionOk(s, j);
  }

  lemma MgrRequested(web: Web, inputs: seq<seq<Frame>>, s: System, j: nat)
    requires SessionsFine(s) && ClientsFine(s, inputs) && BatchesRequested(inputs, s) && MgrCan(s, j)
    ensures BatchesRequested(inputs, MgrNext(web, s, j))
  {
    hide ServeAll;
    var x, n := s.sessions[j], MgrNext(web, s, j);
    assert SessionOk(s, j);
    if n.served != s.served {
      var i := x.owner;
      var c := s.clients[i];
      assert ClientFine(s, i, c, inputs[i]);
      AddressesOfArray(x.urls);
      var k := |c.answered|;
      assert inputs[i][k] == c.pc.h.req;
      assert Requested(inputs, x.urls);
    }
  }

  /** Everything that holds of the system holds after every step. */
  lemma FineKept(web: Web, first: Mgr, inputs: seq<seq<Frame>>, s: System, st: Step)
    requires Fine(web, first, inputs, s) && CanStep(s, st)
    ensures Fine(web, first, inputs, Do(web, s, st))
  {
    assert st.ClientStep? ==> ClientFine(s, st.i, s.clients[st.i], inputs[st.i]);
    StepGrows(web, s, st);
    var n := Do(web, s, st);
    match st
    case ClientStep(i) =>
      ClientActs(s, i);
      ClientStepFine(web, s, i, inputs[i]);
      ClientsKept(s, n, i, inputs);
      ClientKeepsSessions(web, s, i, inputs[i]);
      ClientBatches(s, i);
    case MgrStep(j) =>
      MgrLocal(web, s, j);
      MgrKeepsSessions(web, s, j);
      MgrLinear(web, first, s, j);
      MgrBatches(web, s, j);
      MgrRequested(web, inputs, s, j);
      forall i | 0 <= i < |n.clients| ensures ClientFine(n, i, n.clients[i], inputs[i]) {
        ClientStays(s, n, i, s.clients[i], inputs[i]);
      }
    case Leave(i) => LeaveFine(web, first, inputs, s, i);
  }

  lemma ClientBatches(s: System, i: nat)
    requires BatchesApart(s) && ClientCan(s, i)
    ensures BatchesApart(ClientNext(s, i))
  {
  }

  lemma LeaveKeepsSessions(s: System, i: nat)
    requires SessionsFine(s) && i < |s.clients|
    ensures SessionsFine(Put(s, i, s.clients[i].(gone := true)))
  {
    var n := Put(s, i, s.clients[i].(gone := true));
    forall k | 0 <= k < |n.sessions| ensures SessionOk(n, k) {
      assert SessionOk(s, k);
      var x := s.sessions[k];
      hide SessionFine, LogFine;
      LogStays(s, n, x);
      if Inner(s.clients[x.owner].pc) == Some(k) {
        FineStays(s, n, x, s.clients[x.owner].pc);
      }
    }
  }

  lemma LogStays(s: System, n: System, x: Session)
    requires LogFine(s, x) && s.served <= n.served
    ensures LogFine(n, x)
  {
  }

  lemma LeaveClient(s: System, i: nat, c: Client, input: seq<Frame>)
    requires ClientFine(s, i, c, input)
    ensures ClientFine(s, i, c.(gone := true), input)
  {
    hide IsReply, PcFine, OwnSession;
  }

  lemma LeaveClients(s: System, i: nat, inputs: seq<seq<Frame>>)
    requires ClientsFine(s, inputs) && i < |s.clients|
    ensures ClientsFine(Put(s, i, s.clients[i].(gone := true)), inputs)
  {
    var n := Put(s, i, s.clients[i].(gone := true));
    hide ClientFine;
    forall k | 0 <= k < |n.clients| ensures ClientFine(n, k, n.clients[k], inputs[k]) {
      assert ClientFine(s, k, s.clients[k], inputs[k]);
      LeaveClient(s, k, s.clients[k], inputs[k]);
      ClientStays(s, n, k, n.clients[k], inputs[k]);
    }
  }

  lemma LeaveFine(web: Web, first: Mgr, inputs: seq<seq<Frame>>, s: System, i: nat)
    requires Fine(web, first, inputs, s) && CanStep(s, Leave(i))
    ensures Fine(web, first, inputs, Do(web, s, Leave(i)))
  {
    LeaveKeepsSessions(s, i);
    LeaveClients(s, i, inputs);
    hide SessionsFine, ClientsFine, ServeBatches, Requested;
  }

  lemma StartFine(web: Web, first: Mgr, inputs: seq<seq<Frame>>)
    ensures Fine(web, first, inputs, Start(inputs, first))
  {
    var s := Start(inputs, first);
    assert UrlsOf([]) == [] && PathsOf([]) == [];
    forall i | 0 <= i < |inputs| ensures ClientFine(s, i, s.clients[i], inputs[i]) {
      assert Requests([]) + [] + inputs[i] == inputs[i];
    }
  }

  lemma {:induction false} RunFine(web: Web, first: Mgr, inputs: seq<seq<Frame>>, s: System, sts: seq<Step>,
                                    last: System)
    requires Fine(web, first, inputs, s) && Runs(web, s, sts, last)
    ensures Fine(web, first, inputs, last)
    decreases |sts|
  {
    if sts == [] {
    } else {
      FineKept(web, first, inputs, s, sts[0]);
      RunFine(web, first, inputs, Do(web, s, sts[0]), sts[1..], last);
    }
  }

  // ---- what every client sees ----

  /** In every interleaving of any number of clients with the one asset manager, each client has been
      sent the state frame and then one reply a request, in the order of its requests; a request for
      assets got the result of a batch of exactly its own addresses. The batches are served one
      after another by one manager. */
  lemma EveryClientIsAnswered(web: Web, first: Mgr, inputs: seq<seq<Frame>>, sts: seq<Step>, s: System, i: nat)
    requires Runs(web, Start(inputs, first), sts, s) && i < |inputs|
    ensures |s.clients| == |inputs|
    ensures var c := s.clients[i];
      && Requests(c.answered) + Current(c.pc) + c.unread == inputs[i]
      && (c.sent == [] ==> c.answered == [])
      && (c.sent != [] ==> |c.sent| == |c.answered| + 1 && c.sent[0] == STATE_FRAME)
      && (forall k | 0 <= k < |c.answered| :: IsReply(s, i, c.answered[k], c.sent[k + 1]))
    ensures ServeBatches(web, first, UrlsOf(s.served)) == (s.mgr, PathsOf(s.served))
    ensures forall j, k | 0 <= j < k < |s.sessions| && s.sessions[j].batch.Some? && s.sessions[k].batch.Some? ::
      s.sessions[j].batch != s.sessions[k].batch
    ensures AnswersRead(s.clients[i], inputs[i])
  {
    StartFine(web, first, inputs);
    RunFine(web, first, inputs, Start(inputs, first), sts, s);
    hide Linear, Runs, BatchesRequested;
    assert ClientFine(s, i, s.clients[i], inputs[i]);
    AnswersAreRead(s, i, s.clients[i], inputs[i]);
  }

  /** What the client reads: the state frame, and then for each of its requests in turn the reply to it; a
      request that loads a provider is the last one answered, and the client is handed to just that one. */
  ghost predicate AnswersRead(c: Client, input: seq<Frame>) {
    && (c.sent != [] ==> c.sent[0] == Frame("state", Str("acord")))
    && |c.sent| <= |input| + 1
    && (forall k | 0 <= k < |c.sent| - 1 :: IsAnswer(input[k], c.sent[k + 1]))
    && (forall k | 0 <= k < |c.sent| - 1 && LoadsProvider(input[k]) :: k == |c.sent| - 2 && c.pc.Provided?)
    && (c.pc.Provided? ==> |c.sent| > 1 && NamesProvider(input[|c.sent| - 2], c.pc.provider))
  }

  lemma ReplyIsAnswer(s: System, i: nat, h: Handled, f: Frame)
    requires IsReply(s, i, h, f)
    ensures IsAnswer(h.req, f)
  {
    if h.req.op == OP_ASSETS {
      var x := s.sessions[h.session.value];
      StringsExact(h.req.data, x.urls);
      StrArrayExact(s.served[x.batch.value].paths.value);
    } else {
      PlainReplyExact(h.req);
    }
  }

  lemma AnswersAreRead(s: System, i: nat, c: Client, input: seq<Frame>)
    requires ClientFine(s, i, c, input)
    ensures AnswersRead(c, input)
  {
    hide IsReply, PcFine, Loads, IsAnswer, LoadsProvider, NamesProvider, SessionsOnce;
    forall k | 0 <= k < |c.sent| - 1
      ensures IsAnswer(input[k], c.sent[k + 1])
      ensures LoadsProvider(input[k]) ==> k == |c.sent| - 2 && c.pc.Provided?
    {
      var h := c.answered[k];
      assert input[k] == Requests(c.answered)[k] == h.req;
      ReplyIsAnswer(s, i, h, c.sent[k + 1]);
      LoadsExact(h.req);
    }
    if c.pc.Provided? {
      var n := |c.answered|;
      assert input[n - 1] == Requests(c.answered)[n - 1];
      ProvidedNames(c.answered[n - 1].req, c.pc.provider);
    }
  }

  lemma ProvidedNames(f: Frame, name: string)
    requires Loads(f) && ProviderName(f.data) == Some(name)
    ensures NamesProvider(f, name)
  {
    ProviderNameExact(f, name);
  }

  /** An answered request for assets. */
  ghost predicate AssetRequest(s: System, i: nat, k: nat) {
    i < |s.clients| && k < |s.clients[i].answered| && s.clients[i].answered[k].req.op == OP_ASSETS
  }

  /** Any two answered requests for assets, of one client or of two, had inner sessions of their own and
      batches of their own. */
  lemma EachHasItsOwn(web: Web, first: Mgr, inputs: seq<seq<Frame>>, sts: seq<Step>, s: System,
                      i: nat, k: nat, j: nat, l: nat)
    requires Runs(web, Start(inputs, first), sts, s)
    requires AssetRequest(s, i, k) && AssetRequest(s, j, l) && (i != j || k != l)
    ensures var x, y := s.clients[i].answered[k], s.clients[j].answered[l];
      && x.session.Some? && y.session.Some? && x.session != y.session
      && BatchOf(s, x).Some? && BatchOf(s, y).Some? && BatchOf(s, x) != BatchOf(s, y)
  {
    StartFine(web, first, inputs);
    RunFine(web, first, inputs, Start(inputs, first), sts, s);
    hide Runs, Linear;
    var x, y := s.clients[i].answered[k], s.clients[j].answered[l];
    assert ClientFine(s, i, s.clients[i], inputs[i]) && ClientFine(s, j, s.clients[j], inputs[j]);
    assert IsReply(s, i, x, s.clients[i].sent[k + 1]) && IsReply(s, j, y, s.clients[j].sent[l + 1]);
    if i == j {
      assert k < l || l < k;
    }
  }

  /** The inner session of a request that was answered, or that nobody is handling, is closed. */
  lemma InnerSessionsClose(web: Web, first: Mgr, inputs: seq<seq<Frame>>, sts: seq<Step>, s: System, j: nat)
    requires Runs(web, Start(inputs, first), sts, s) && j < |s.sessions|
    ensures var x := s.sessions[j];
      x.owner < |s.clients| &&
      (Inner(s.clients[x.owner].pc) != Some(j) ==> x.closed && x.toMgr == [] && x.fromMgr == [])
  {
    StartFine(web, first, inputs);
    RunFine(web, first, inputs, Start(inputs, first), sts, s);
    assert SessionOk(s, j);
  }

  /** Over every interleaving, whatever became of its client: what was polled at the two ends of an inner
      session is, as far as it goes, the state frame, a command for exactly its addresses and the result
      of the batch it had served; and neither of its channels ever holds two frames. */
  lemma InnerSessionLog(web: Web, first: Mgr, inputs: seq<seq<Frame>>, sts: seq<Step>, s: System, j: nat)
    requires Runs(web, Start(inputs, first), sts, s) && j < |s.sessions|
    ensures var x := s.sessions[j];
      && |x.toMgr| <= 1 && |x.fromMgr| <= 1 && |x.log| <= 3
      && (|x.log| >= 1 ==> x.log[0] == FromMgr(MGR_STATE_FRAME))
      && (|x.log| >= 2 ==> x.log[1] == ToMgr(AskFrame(x.urls)))
      && (|x.log| == 3 ==> x.log[2].FromMgr? && HasResult(s, x, x.log[2].f))
      && (|x.log| >= 2 <==> x.batch.Some?)
  {
    StartFine(web, first, inputs);
    RunFine(web, first, inputs, Start(inputs, first), sts, s);
    assert SessionOk(s, j);
    LogIsFine(s, j);
    hide SessionsFine, SessionOk, Linear, ClientsFine, BatchesApart, BatchesRequested, Runs, HasResult;
  }

  lemma LogIsFine(s: System, j: nat)
    requires j < |s.sessions| && SessionOk(s, j)
    ensures var x := s.sessions[j]; |x.toMgr| <= 1 && |x.fromMgr| <= 1 && LogFine(s, x)
  {
    hide HasResult, Died;
  }

  /** The inner session of an answered request for assets had the whole of it: state, command with the
      request's addresses, and the result, which the client got under the name of its request. */
  lemma AnsweredLog(web: Web, first: Mgr, inputs: seq<seq<Frame>>, sts: seq<Step>, s: System, i: nat, k: nat)
    requires Runs(web, Start(inputs, first), sts, s) && AssetRequest(s, i, k)
    ensures k + 1 < |s.clients[i].sent|
    ensures var h, reply := s.clients[i].answered[k], s.clients[i].sent[k + 1];
      && h.session.Some? && h.session.value < |s.sessions| && Strings(h.req.data).Some?
      && var x, urls := s.sessions[h.session.value], Strings(h.req.data).value;
         && HasResult(s, x, reply.(op := "assets")) && reply.op == OP_ASSETS
         && x.urls == urls
         && x.log == [FromMgr(MGR_STATE_FRAME), ToMgr(AskFrame(urls)), FromMgr(reply.(op := "assets"))]
         && x.log[0] == FromMgr(Frame("state", Str("asset-mgr")))
         && x.log[1].f.op == "make-assets-available" && IsList(x.log[1].f.data, urls) && IsList(h.req.data, urls)
         && reply.op == "make_assets_available" && AllStrings(reply.data)
  {
    StartFine(web, first, inputs);
    RunFine(web, first, inputs, Start(inputs, first), sts, s);
    hide Linear, SessionsFine, BatchesApart, BatchesRequested, Runs;
    assert ClientFine(s, i, s.clients[i], inputs[i]);
    var h := s.clients[i].answered[k];
    assert IsReply(s, i, h, s.clients[i].sent[k + 1]);
    hide Fine;
    ReplyIsAnswer(s, i, h, s.clients[i].sent[k + 1]);
    StringsExact(h.req.data, Strings(h.req.data).value);
    StrArrayExact(Strings(h.req.data).value);
  }

  /** A client that was handed over: its last request loaded the provider, its last reply said so,
      and what it had pushed after that is unread. */
  ghost predicate HandedOver(c: Client, input: seq<Frame>) {
    && c.pc.Provided? && c.answered != [] && c.sent != []
    && |c.answered| <= |input| && c.unread == input[|c.answered|..]
    && Loads(input[|c.answered| - 1])
    && ProviderName(input[|c.answered| - 1].data) == Some(c.pc.provider)
    && NamesProvider(input[|c.answered| - 1], c.pc.provider)
    && c.sent[|c.sent| - 1] == Frame("load_provider", Null)
  }

  lemma ProvidedIsHandedOver(s: System, i: nat, c: Client, input: seq<Frame>)
    requires ClientFine(s, i, c, input) && c.pc.Provided?
    ensures HandedOver(c, input)
  {
    var n := |c.answered|;
    assert input == Requests(c.answered) + c.unread;
    assert input[n - 1] == Requests(c.answered)[n - 1];
    assert IsReply(s, i, c.answered[n - 1], c.sent[n]);
    ProvidedNames(input[n - 1], c.pc.provider);
  }

  /** After the reply to a load of a provider nothing is sent any more, and the provider has all the
      frames not polled until then, unchanged and in order. */
  lemma {:induction false} HandOver(web: Web, first: Mgr, inputs: seq<seq<Frame>>, s: System, i: nat,
                                     sts: seq<Step>, last: System)
    requires Fine(web, first, inputs, s) && i < |inputs| && s.clients[i].pc.Provided? && Runs(web, s, sts, last)
    ensures i < |last.clients|
    ensures last.clients[i].(gone := s.clients[i].gone) == s.clients[i]
    ensures HandedOver(last.clients[i], inputs[i])
    decreases |sts|
  {
    if sts == [] {
      ProvidedIsHandedOver(s, i, s.clients[i], inputs[i]);
    } else {
      FineKept(web, first, inputs, s, sts[0]);
      ProvidedStays(web, s, i, sts[0]);
      HandOver(web, first, inputs, Do(web, s, sts[0]), i, sts[1..], last);
    }
  }

  lemma ProvidedStays(web: Web, s: System, i: nat, st: Step)
    requires SessionsFine(s) && CanStep(s, st) && i < |s.clients| && s.clients[i].pc.Provided?
    ensures var n := Do(web, s, st);
      |n.clients| == |s.clients| && n.clients[i].(gone := s.clients[i].gone) == s.clients[i]
  {
    match st
    case ClientStep(k) => ClientActs(s, k);
    case MgrStep(j) => MgrLocal(web, s, j);
    case Leave(k) =>
  }

  // ---- every run ends, and nobody is left waiting ----

  function PcWeight(pc: ClientPc): nat {
    match pc
    case Greet => 2
    case Ready => 1
    case AwaitState(_, _) => 7
    case Ask(_, _) => 6
    case AwaitResult(_, _) => 3
    case Give(_, _) => 2
    case Refuse(_, _) => 2
    case Accept(_, _) => 2
    case Provided(_) => 0
    case Over(_, _) => 0
  }

  function ClientWeight(c: Client): nat { 12 * |c.unread| + PcWeight(c.pc) + if c.gone then 0 else 1 }

  function SessionWeight(x: Session): nat {
    2 * |x.toMgr| + match x.pc
      case MgrGreet => 2
      case MgrPoll => 1
      case MgrReply(_) => 2
      case MgrDone => 0
  }

  function ClientsWeight(cs: seq<Client>): nat {
    if cs == [] then 0 else ClientsWeight(cs[..|cs| - 1]) + ClientWeight(cs[|cs| - 1])
  }

  function SessionsWeight(xs: seq<Session>): nat {
    if xs == [] then 0 else SessionsWeight(xs[..|xs| - 1]) + SessionWeight(xs[|xs| - 1])
  }

  function TotalWeight(s: System): nat { ClientsWeight(s.clients) + SessionsWeight(s.sessions) }

  lemma {:induction false} ClientsWeightAt(cs: seq<Client>, i: nat, c: Client)
    requires i < |cs|
    ensures ClientsWeight(cs[i := c]) + ClientWeight(cs[i]) == ClientsWeight(cs) + ClientWeight(c)
  {
    var front := cs[..|cs| - 1];
    if i < |front| {
      ClientsWeightAt(front, i, c);
      assert cs[i := c][..|cs| - 1] == front[i := c];
    } else {
      assert cs[i := c][..|cs| - 1] == front;
    }
  }

  lemma {:induction false} SessionsWeightAt(xs: seq<Session>, j: nat, x: Session)
    requires j < |xs|
    ensures SessionsWeight(xs[j := x]) + SessionWeight(xs[j]) == SessionsWeight(xs) + SessionWeight(x)
  {
    var front := xs[..|xs| - 1];
    if j < |front| {
      SessionsWeightAt(front, j, x);
      assert xs[j := x][..|xs| - 1] == front[j := x];
    } else {
      assert xs[j := x][..|xs| - 1] == front;
    }
  }

  lemma TalkWeighs(s: System, i: nat)
    requires ClientCan(s, i) && Inner(s.clients[i].pc).Some?
    ensures TotalWeight(ClientNext(s, i)) < TotalWeight(s)
  {
    hide StrArray, ClientsWeight, SessionsWeight;
    var n := ClientNext(s, i);
    var j := Inner(s.clients[i].pc).value;
    ClientActs(s, i);
    assert n.clients == s.clients[i := n.clients[i]] && n.sessions == s.sessions[j := n.sessions[j]];
    ClientsWeightAt(s.clients, i, n.clients[i]);
    SessionsWeightAt(s.sessions, j, n.sessions[j]);
    assert SessionWeight(n.sessions[j]) + PcWeight(n.clients[i].pc)
      < SessionWeight(s.sessions[j]) + PcWeight(s.clients[i].pc);
  }

  lemma OpenWeighs(s: System, i: nat)
    requires ClientCan(s, i) && s.clients[i].pc == Ready
    ensures TotalWeight(ClientNext(s, i)) < TotalWeight(s)
  {
    hide StrArray, Strings, ProviderName, ClientsWeight;
    var c, n := s.clients[i], ClientNext(s, i);
    assert n.clients == s.clients[i := n.clients[i]];
    ClientsWeightAt(s.clients, i, n.clients[i]);
    if |n.sessions| > |s.sessions| {
      assert n.sessions[..|n.sessions| - 1] == s.sessions;
      assert |n.clients[i].unread| == |c.unread| - 1;
    }
  }

  lemma ClientWeighs(s: System, i: nat)
    requires ClientCan(s, i)
    ensures TotalWeight(ClientNext(s, i)) < TotalWeight(s)
  {
    if Inner(s.clients[i].pc).Some? {
      TalkWeighs(s, i);
    } else if s.clients[i].pc == Ready {
      OpenWeighs(s, i);
    } else {
      ClientsWeightAt(s.clients, i, ClientNext(s, i).clients[i]);
    }
  }

  lemma MgrWeighs(web: Web, s: System, j: nat)
    requires MgrCan(s, j)
    ensures TotalWeight(MgrNext(web, s, j)) < TotalWeight(s)
  {
    SessionsWeightAt(s.sessions, j, MgrNext(web, s, j).sessions[j]);
  }

  /** No run is longer than the weight it starts with. */
  lemma {:induction false} RunsEnd(web: Web, s: System, sts: seq<Step>, last: System)
    requires Runs(web, s, sts, last)
    ensures |sts| + TotalWeight(last) <= TotalWeight(s)
    decreases |sts|
  {
    if sts == [] {
    } else {
      match sts[0]
      case ClientStep(i) => ClientWeighs(s, i); RunsEnd(web, Do(web, s, sts[0]), sts[1..], last);
      case MgrStep(j) => MgrWeighs(web, s, j); RunsEnd(web, Do(web, s, sts[0]), sts[1..], last);
      case Leave(i) =>
        ClientsWeightAt(s.clients, i, s.clients[i].(gone := true));
        RunsEnd(web, Do(web, s, sts[0]), sts[1..], last);
    }
  }

  /** Nothing is left to do, short of a client leaving. */
  ghost predicate Quiet(s: System) {
    (forall i :: !ClientCan(s, i)) && (forall j :: !MgrCan(s, j))
  }

  /** The composition never deadlocks: when nothing is left to do, each client's session was handed to
      a provider, or has answered every request and waits for more, or ended because the client left,
      sent malformed addresses, or asked for a batch that died; and every session with the asset
      manager is closed and done. */
  lemma QuietIsDone(web: Web, first: Mgr, inputs: seq<seq<Frame>>, s: System)
    requires Fine(web, first, inputs, s) && Quiet(s)
    ensures forall i | 0 <= i < |s.clients| :: var c := s.clients[i];
      || c.pc.Provided?
      || (c.pc == Ready && Requests(c.answered) == inputs[i])
      || (c.pc.Over? && (c.pc.cause == ClientLeft ==> c.gone) && PcFine(s, i, c.pc))
    ensures forall j | 0 <= j < |s.sessions| :: s.sessions[j].pc == MgrDone && s.sessions[j].closed
  {
    forall j | 0 <= j < |s.sessions|
      ensures s.sessions[j].pc == MgrDone && s.sessions[j].closed
    {
      NotTalking(web, first, inputs, s, j);
    }
    forall i | 0 <= i < |s.clients|
      ensures var c := s.clients[i];
        || c.pc.Provided?
        || (c.pc == Ready && Requests(c.answered) == inputs[i])
        || (c.pc.Over? && (c.pc.cause == ClientLeft ==> c.gone) && PcFine(s, i, c.pc))
    {
      var c := s.clients[i];
      assert ClientFine(s, i, c, inputs[i]);
      assert !ClientCan(s, i);
      if Inner(c.pc).Some? {
        NotTalking(web, first, inputs, s, Inner(c.pc).value);
      }
      assert Requests(c.answered) + [] + [] == Requests(c.answered);
    }
  }

  lemma NotTalking(web: Web, first: Mgr, inputs: seq<seq<Frame>>, s: System, j: nat)
    requires Fine(web, first, inputs, s) && Quiet(s) && j < |s.sessions|
    ensures s.sessions[j].owner < |s.clients| && Inner(s.clients[s.sessions[j].owner].pc) != Some(j)
    ensures s.sessions[j].pc == MgrDone && s.sessions[j].closed
  {
    assert SessionOk(s, j);
    assert !MgrCan(s, j);
    var i := s.sessions[j].owner;
    assert !ClientCan(s, i);
    assert ClientFine(s, i, s.clients[i], inputs[i]);
  }

  /** The batch of an answered request for assets. */
  function BatchOf(s: System, h: Handled): Option<nat> {
    if h.session.Some? && h.session.value < |s.sessions| then s.sessions[h.session.value].batch else None
  }

  /** End to end: a client's answered request for assets got one entry for each of its addresses. An entry
      is the path for its address exactly if, at its turn, the asset was there or its download
      succeeded, and else it is empty; and every path still names a file. */
  lemma PathsReceivedExist(web: Web, first: Mgr, inputs: seq<seq<Frame>>, sts: seq<Step>, s: System, i: nat, k: nat,
                           e: nat)
    requires CacheTrue(first) && Runs(web, Start(inputs, first), sts, s) && i < |inputs|
    requires i < |s.clients| && k < |s.clients[i].answered| && s.clients[i].answered[k].req.op == OP_ASSETS
    ensures k < |inputs[i]| && s.clients[i].answered[k].req == inputs[i][k] && k + 1 < |s.clients[i].sent|
    ensures Strings(inputs[i][k].data).Some? && Strings(s.clients[i].sent[k + 1].data).Some?
    ensures IsList(inputs[i][k].data, Strings(inputs[i][k].data).value)
    ensures IsList(s.clients[i].sent[k + 1].data, Strings(s.clients[i].sent[k + 1].data).value)
    ensures var urls, paths := Strings(inputs[i][k].data).value, Strings(s.clients[i].sent[k + 1].data).value;
      var b := BatchOf(s, s.clients[i].answered[k]);
      && b.Some? && b.value < |s.served| && s.served[b.value].urls == urls && |paths| == |urls|
      && (e < |urls| ==>
            && paths[e] == (if Obtains(web, AtTurn(web, first, UrlsOf(s.served), b.value, e), urls[e])
                            then first.Target(urls[e]) else "")
            && (paths[e] != "" ==> IsFile(s.mgr.files, paths[e])))
  {
    EveryClientIsAnswered(web, first, inputs, sts, s, i);
    hide Runs, Obtains, AtTurn, CacheTrue, ServeBatches, IsFile;
    var c := s.clients[i];
    var h := c.answered[k];
    assert Requests(c.answered)[k] == inputs[i][k];
    assert IsReply(s, i, h, c.sent[k + 1]);
    var x := s.sessions[h.session.value];
    var b := x.batch.value;
    var batches := UrlsOf(s.served);
    assert HasResult(s, x, c.sent[k + 1].(op := "assets"));
    StringsOfArray(s.served[b].paths.value);
    StrArrayExact(s.served[b].paths.value);
    StringsExact(h.req.data, x.urls);
    assert batches[b] == x.urls && ServeBatches(web, first, batches).1[b] == s.served[b].paths;
    BatchLength(web, first, batches, b);
    if e < |x.urls| {
      PathsGivenExist(web, first, batches, b, e);
      EntriesInRun(web, first, batches, b, e);
    }
  }

  lemma BatchFate(web: Web, first: Mgr, s: System, b: nat)
    requires Tidy(first) && CacheTrue(first) && Linear(web, first, s) && b < |s.served|
    ensures s.served[b].paths.None? <==> !AllServable(first, s.served[b].urls)
  {
    DeadBatchesExactly(web, first, UrlsOf(s.served), b);
    hide ServeBatches, AllServable, Tidy, CacheTrue, InOrder;
    assert UrlsOf(s.served)[b] == s.served[b].urls;
    assert ServeBatches(web, first, UrlsOf(s.served)).1[b] == s.served[b].paths;
  }

  /** Which requests for assets end their session was settled by the disk at the start: a session ended
      without a result on a request with an address that nothing can be had for, and every request
      answered had none such. */
  lemma NoResultExactly(web: Web, first: Mgr, inputs: seq<seq<Frame>>, s: System, i: nat)
    requires Tidy(first) && CacheTrue(first) && Fine(web, first, inputs, s) && i < |s.clients|
    ensures forall h | h in s.clients[i].answered && h.req.op == OP_ASSETS ::
      Strings(h.req.data).Some? && AllServable(first, Strings(h.req.data).value)
    ensures var pc := s.clients[i].pc; pc.Over? && pc.cause.NoResult? ==>
      |pc.pending| == 1 && Strings(pc.pending[0].data).Some?
      && !AllServable(first, Strings(pc.pending[0].data).value)
  {
    hide AllServable, Tidy, CacheTrue, Linear, SessionsFine, BatchesApart, BatchesRequested, StrArray;
    var c := s.clients[i];
    assert ClientFine(s, i, c, inputs[i]);
    forall h | h in c.answered && h.req.op == OP_ASSETS
      ensures Strings(h.req.data).Some? && AllServable(first, Strings(h.req.data).value)
    {
      var k :| 0 <= k < |c.answered| && c.answered[k] == h;
      assert IsReply(s, i, h, c.sent[k + 1]);
      BatchFate(web, first, s, s.sessions[h.session.value].batch.value);
    }
    if c.pc.Over? && c.pc.cause.NoResult? {
      BatchFate(web, first, s, s.sessions[c.pc.cause.session].batch.value);
    }
  }

  /** Over every interleaving: taking the manager's cache away would change no batch's paths, no file
      and no download attempt; and every asset file is published all or nothing, from an address that
      some client asked for. */
  lemma SharedManagerIsSound(web: Web, first: Mgr, inputs: seq<seq<Frame>>, sts: seq<Step>, s: System)
    requires CacheTrue(first) && first.attempts == [] && Runs(web, Start(inputs, first), sts, s)
    ensures ServeBatchesPlain(web, first.Plain(), UrlsOf(s.served)) == (s.mgr.Plain(), PathsOf(s.served))
    ensures Published(web, first, s.mgr, Asked(UrlsOf(s.served))) && CacheTrue(s.mgr)
    ensures forall url | url in Asked(UrlsOf(s.served)) :: ClientAsked(inputs, url)
  {
    StartFine(web, first, inputs);
    RunFine(web, first, inputs, Start(inputs, first), sts, s);
    var batches := UrlsOf(s.served);
    hide ServeBatches, ServeBatchesPlain, Published, CacheTrue, Runs;
    CacheRefines(web, first, batches);
    BatchesPublish(web, first, batches, Asked(batches));
    BatchesKeep(web, first, batches);
    forall url | url in Asked(batches) ensures ClientAsked(inputs, url) {
      var b :| 0 <= b < |batches| && url in batches[b];
      assert batches[b] == s.served[b].urls;
      assert Requested(inputs, s.served[b].urls);
    }
  }

  /** Some client's request has the address. */
  ghost predicate ClientAsked(inputs: seq<seq<Frame>>, url: string) {
    exists urls :: url in urls && Requested(inputs, urls)
  }

  lemma {:induction false} BatchLength(web: Web, m: Mgr, batches: seq<seq<string>>, k: nat)
    requires k < |batches| && ServeBatches(web, m, batches).1[k].Some?
    ensures |ServeBatches(web, m, batches).1[k].value| == |batches[k]|
    decreases |batches|
  {
    if k < |batches| - 1 {
      BatchLength(web, m, batches[..|batches| - 1], k);
    }
  }
}
