/** The two coroutines as loops over an endpoint, each run without interruption. */
module Sessions {
  import opened Wrappers
  import opened Frames
  import opened Protocol
  import opened AssetMgr
  import Service = AssetMgrService
  import opened Acord

  /** One side of a stream: what the other side has pushed, until it closed, and what was pushed to it. */
  class Endpoint {
    var unread: seq<Frame>
    var sent: seq<Frame>

    constructor (unread: seq<Frame>)
      ensures this.unread == unread && sent == []
    {
      this.unread, sent := unread, [];
    }

    method Push(f: Frame)
      modifies this`sent
      ensures sent == old(sent) + [f]
    {
      sent := sent + [f];
    }

    method Poll() returns (f: Frame)
      requires unread != []
      modifies this`unread
      ensures f == old(unread)[0] && unread == old(unread)[1..]
    {
      f := unread[0];
      unread := unread[1..];
    }
  }

  /** What becomes of a request stream: the manager, the replies, what is left unread, and the
      provider that gets it. */
  datatype Outcome = Outcome(mgr: Mgr, replies: seq<Frame>, unread: seq<Frame>, provider: Option<string>)

  function Put(f: Frame, o: Outcome): Outcome { o.(replies := [f] + o.replies) }

  function PutAll(fs: seq<Frame>, o: Outcome): Outcome { o.(replies := fs + o.replies) }

  lemma PutLast(fs: seq<Frame>, f: Frame, o: Outcome)
    ensures PutAll(fs, Put(f, o)) == PutAll(fs + [f], o)
  {
    assert fs + ([f] + o.replies) == (fs + [f]) + o.replies;
  }

  // ---- the asset manager's session ----

  /** What the manager and the replies are after a list of commands, and what is left unread. */
  function Commands(web: Web, m: Mgr, cmds: seq<Frame>): Outcome
    decreases |cmds|
  {
    if cmds == [] then Outcome(m, [], [], None) else
    var (n, reply) := CommandReply(web, m, cmds[0]);
    if reply.None? then Outcome(n, [], cmds[1..], None)
    else Put(reply.value, Commands(web, n, cmds[1..]))
  }

  // ---- what the manager's session replies ----

  /** The batch a command has served, if it is one for assets: of the addresses before its data throws. */
  function BatchOfCommand(cmd: Frame): seq<seq<string>> {
    if cmd.op == "make-assets-available" then [Addresses(cmd.data).0] else []
  }

  function BatchesOf(cmds: seq<Frame>): seq<seq<string>> {
    if cmds == [] then [] else BatchesOf(cmds[..|cmds| - 1]) + BatchOfCommand(cmds[|cmds| - 1])
  }

  /** The frame is the reply to the command after the commands before it: the paths of a batch of exactly
      the command's addresses, served by what the earlier commands made of the manager. */
  ghost predicate CommandReplied(web: Web, m: Mgr, before: seq<Frame>, cmd: Frame, f: Frame) {
    if cmd.op != "make-assets-available" then f == Frame("error", Str("Unknown command"))
    else
      && !Addresses(cmd.data).1
      && var r := ServeAll(web, ServeBatches(web, m, BatchesOf(before)).0, Addresses(cmd.data).0).1;
         r.Some? && f.op == "assets" && IsList(f.data, r.value)
  }

  /** The command ends the session: reading its data throws, or its batch dies. */
  ghost predicate CommandStops(web: Web, m: Mgr, before: seq<Frame>, cmd: Frame) {
    && cmd.op == "make-assets-available"
    && (!Addresses(cmd.data).1 ==>
          ServeAll(web, ServeBatches(web, m, BatchesOf(before)).0, Addresses(cmd.data).0).1.None?)
  }

  /** One reply a command, each from its own batch, up to the command that ends the session or the last
      one; what was not polled is untouched, and the manager has served just the commands polled. */
  ghost predicate RepliesToCommands(web: Web, m: Mgr, before: seq<Frame>, cmds: seq<Frame>, o: Outcome) {
    var n := |o.replies|;
    && n <= |cmds| && o.provider == None
    && (forall k | 0 <= k < n :: CommandReplied(web, m, before + cmds[..k], cmds[k], o.replies[k]))
    && (if n == |cmds| then
          o.unread == [] && o.mgr == ServeBatches(web, m, BatchesOf(before + cmds)).0
        else
          && CommandStops(web, m, before + cmds[..n], cmds[n]) && o.unread == cmds[n + 1..]
          && o.mgr == ServeBatches(web, m, BatchesOf(before + cmds[..n + 1])).0)
  }

  lemma BatchesOfLast(before: seq<Frame>, cmd: Frame)
    ensures BatchesOf(before + [cmd]) == BatchesOf(before) + BatchOfCommand(cmd)
  {
    assert (before + [cmd])[..|before|] == before;
  }

  lemma ServeBatchesLast(web: Web, m: Mgr, batches: seq<seq<string>>, urls: seq<string>)
    ensures ServeBatches(web, m, batches + [urls]).0
      == ServeAll(web, ServeBatches(web, m, batches).0, urls).0
  {
    hide ServeAll;
    assert (batches + [urls])[..|batches|] == batches;
  }

  lemma CommandMoves(web: Web, m: Mgr, before: seq<Frame>, cmd: Frame)
    ensures var at := ServeBatches(web, m, BatchesOf(before)).0; var (n, reply) := CommandReply(web, at, cmd);
      && n == ServeBatches(web, m, BatchesOf(before + [cmd])).0
      && (reply.Some? ==> CommandReplied(web, m, before, cmd, reply.value))
      && (reply.None? ==> CommandStops(web, m, before, cmd))
  {
    hide StrArray, Addresses, ServeAll, ServeBatches, BatchesOf;
    BatchesOfLast(before, cmd);
    var served := ServeAll(web, ServeBatches(web, m, BatchesOf(before)).0, Addresses(cmd.data).0).1;
    if served.Some? {
      StrArrayExact(served.value);
    }
    hide IsList;
    if BatchOfCommand(cmd) == [] {
      assert BatchesOf(before) + [] == BatchesOf(before);
    } else {
      ServeBatchesLast(web, m, BatchesOf(before), Addresses(cmd.data).0);
    }
  }

  lemma {:induction false} CommandsShape(web: Web, m: Mgr, before: seq<Frame>, cmds: seq<Frame>)
    ensures RepliesToCommands(web, m, before, cmds,
                              Commands(web, ServeBatches(web, m, BatchesOf(before)).0, cmds))
    decreases |cmds|
  {
    hide CommandReply, CommandReplied, CommandStops, ServeBatches, BatchesOf;
    var at := ServeBatches(web, m, BatchesOf(before)).0;
    if cmds == [] {
      assert before + cmds == before;
    } else {
      CommandMoves(web, m, before, cmds[0]);
      var (n, reply) := CommandReply(web, at, cmds[0]);
      assert before + cmds[..0] == before;
      if reply.None? {
        assert before + cmds[..1] == before + [cmds[0]];
      } else {
        CommandsShape(web, m, before + [cmds[0]], cmds[1..]);
        OneCommandMore(web, m, before, cmds, reply.value, Commands(web, n, cmds[1..]));
      }
    }
  }

  lemma OneCommandMore(web: Web, m: Mgr, before: seq<Frame>, cmds: seq<Frame>, reply: Frame, o: Outcome)
    requires cmds != [] && RepliesToCommands(web, m, before + [cmds[0]], cmds[1..], o)
    requires CommandReplied(web, m, before, cmds[0], reply)
    ensures RepliesToCommands(web, m, before, cmds, Put(reply, o))
  {
    hide CommandReplied, CommandStops, ServeBatches, BatchesOf;
    var n := |o.replies|;
    assert forall k | 0 <= k < |cmds| :: before + [cmds[0]] + cmds[1..][..k] == before + cmds[..k + 1];
    assert before + [cmds[0]] + cmds[1..] == before + cmds;
    assert before + cmds[..0] == before;
    var p := Put(reply, o);
    forall k | 0 <= k < |p.replies| ensures CommandReplied(web, m, before + cmds[..k], cmds[k], p.replies[k]) {
      if k > 0 {
        assert CommandReplied(web, m, before + [cmds[0]] + cmds[1..][..k - 1], cmds[1..][k - 1], o.replies[k - 1]);
      }
    }
  }

  method RunCommand(mgr: Service.AssetMgrService, cmd: Frame) returns (reply: Option<Frame>)
    requires mgr.Valid()
    modifies mgr`assetUrlToPath, mgr`attempts, mgr`attemptCount, mgr.disk
    ensures mgr.Valid() && (mgr.View(), reply) == CommandReply(mgr.web, old(mgr.View()), cmd)
  {
    if cmd.op != OP_MGR_ASSETS {
      return Some(ErrorFrame("Unknown command"));
    }
    var (urls, throws) := Addresses(cmd.data);
    var paths := mgr.MakeAssetsAvailable(urls);
    if throws || paths.None? {
      return None;
    }
    return Some(ResultFrame(paths.value));
  }

  method RunMgrSession(mgr: Service.AssetMgrService, io: Endpoint)
    requires mgr.Valid() && io.sent == []
    modifies mgr`assetUrlToPath, mgr`attempts, mgr`attemptCount, mgr.disk, io
    ensures mgr.Valid()
    ensures var o := Commands(mgr.web, old(mgr.View()), old(io.unread));
      && mgr.View() == o.mgr && io.sent == [Frame("state", Str("asset-mgr"))] + o.replies
      && io.unread == o.unread
      && RepliesToCommands(mgr.web, old(mgr.View()), [], old(io.unread), o)
  {
    CommandsShape(mgr.web, mgr.View(), [], io.unread);
    assert ServeBatches(mgr.web, mgr.View(), BatchesOf([])).0 == mgr.View();
    hide RepliesToCommands, Service.Realises;
    hide CommandReply;
    io.Push(MGR_STATE_FRAME);
    ghost var whole := Commands(mgr.web, mgr.View(), io.unread);
    ghost var replies: seq<Frame> := [];
    while io.unread != []
      invariant mgr.Valid()
      invariant io.sent == [MGR_STATE_FRAME] + replies
      invariant whole == PutAll(replies, Commands(mgr.web, mgr.View(), io.unread))
      decreases |io.unread|
    {
      var cmd := io.Poll();
      var reply := RunCommand(mgr, cmd);
      if reply.None? {
        return;
      }
      io.Push(reply.value);
      PutLast(replies, reply.value, Commands(mgr.web, mgr.View(), io.unread));
      replies := replies + [reply.value];
    }
  }

  // ---- the client's session ----

  datatype Answer = Replied(f: Frame) | Loaded(name: string) | Stopped

  function RequestAnswer(web: Web, m: Mgr, f: Frame): (Mgr, Answer) {
    if f.op == OP_ASSETS then
      if Strings(f.data).None? then (m, Stopped) else
      var (n, paths) := ServeAll(web, m, Strings(f.data).value);
      (n, if paths.None? then Stopped else Replied(Frame(OP_ASSETS, StrArray(paths.value))))
    else if f.op == OP_LOAD then
      (m, if ProviderName(f.data).Some? then Loaded(ProviderName(f.data).value)
          else Replied(ErrorFrame("bad parameters")))
    else (m, Replied(ErrorFrame("Unknown op: " + f.op)))
  }

  function Serve(web: Web, m: Mgr, reqs: seq<Frame>): Outcome
    decreases |reqs|, 0
  {
    if reqs == [] then Outcome(m, [], [], None) else
    var (n, answer) := RequestAnswer(web, m, reqs[0]);
    Finish(web, n, answer, reqs[1..])
  }

  /** An answer, and then what is left. */
  function Finish(web: Web, m: Mgr, answer: Answer, rest: seq<Frame>): Outcome
    decreases |rest|, 1
  {
    match answer
    case Replied(f) => Put(f, Serve(web, m, rest))
    case Loaded(name) => Outcome(m, [Frame(OP_LOAD, Null)], rest, Some(name))
    case Stopped => Outcome(m, [], rest, None)
  }

  method RunRequest(mgr: Service.AssetMgrService, f: Frame) returns (answer: Answer)
    requires mgr.Valid()
    modifies mgr`assetUrlToPath, mgr`attempts, mgr`attemptCount, mgr.disk
    ensures mgr.Valid() && (mgr.View(), answer) == RequestAnswer(mgr.web, old(mgr.View()), f)
  {
    if f.op == OP_ASSETS {
      var urls := Strings(f.data);
      if urls.None? {
        return Stopped;
      }
      var paths := mgr.MakeAssetsAvailable(urls.value);
      if paths.None? {
        return Stopped;
      }
      return Replied(Frame("assets", StrArray(paths.value)).(op := OP_ASSETS));
    }
    if f.op == OP_LOAD {
      var name := ProviderName(f.data);
      return if name.Some? then Loaded(name.value) else Replied(ErrorFrame("bad parameters"));
    }
    return Replied(ErrorFrame("Unknown op: " + f.op));
  }

  /** What a loop is left with after the replies before. */
  lemma PutAllStep(web: Web, replies: seq<Frame>, m: Mgr, answer: Answer, rest: seq<Frame>)
    ensures var whole := PutAll(replies, Finish(web, m, answer, rest));
      match answer
      case Replied(f) => whole == PutAll(replies + [f], Serve(web, m, rest))
      case Loaded(name) => whole == Outcome(m, replies + [Frame(OP_LOAD, Null)], rest, Some(name))
      case Stopped => whole == Outcome(m, replies, rest, None)
  {
    hide Serve;
    match answer
    case Replied(f) => PutLast(replies, f, Serve(web, m, rest));
    case Loaded(name) =>
    case Stopped => assert replies + [] == replies;
  }

  lemma ServeStep(web: Web, m: Mgr, reqs: seq<Frame>)
    ensures reqs == [] ==> Serve(web, m, reqs) == Outcome(m, [], [], None)
    ensures reqs != [] ==>
      var (n, answer) := RequestAnswer(web, m, reqs[0]); Serve(web, m, reqs) == Finish(web, n, answer, reqs[1..])
  {
  }

  method ServeRequests(mgr: Service.AssetMgrService, io: Endpoint) returns (provider: Option<string>)
    requires mgr.Valid()
    modifies mgr`assetUrlToPath, mgr`attempts, mgr`attemptCount, mgr.disk, io
    ensures mgr.Valid()
    ensures var o := Serve(mgr.web, old(mgr.View()), old(io.unread));
      o == Outcome(mgr.View(), o.replies, io.unread, provider) && io.sent == old(io.sent) + o.replies
  {
    hide RequestAnswer, Serve, Finish, PutAll;
    ghost var whole := Serve(mgr.web, mgr.View(), io.unread);
    ghost var replies: seq<Frame> := [];
    PutAllSimple([], whole);
    while io.unread != []
      invariant mgr.Valid()
      invariant io.sent == old(io.sent) + replies
      invariant whole == PutAll(replies, Serve(mgr.web, mgr.View(), io.unread))
      decreases |io.unread|
    {
      ServeStep(mgr.web, mgr.View(), io.unread);
      var f := io.Poll();
      var answer := RunRequest(mgr, f);
      PutAllStep(mgr.web, replies, mgr.View(), answer, io.unread);
      match answer
      case Replied(reply) =>
        io.Push(reply);
        replies := replies + [reply];
      case Loaded(name) =>
        io.Push(Frame(OP_LOAD, Null));
        return Some(name);
      case Stopped => return None;
    }
    ServeStep(mgr.web, mgr.View(), []);
    PutAllSimple(replies, Serve(mgr.web, mgr.View(), []));
    return None;
  }

  method RunClientSession(mgr: Service.AssetMgrService, io: Endpoint) returns (provider: Option<string>)
    requires mgr.Valid() && io.sent == []
    modifies mgr`assetUrlToPath, mgr`attempts, mgr`attemptCount, mgr.disk, io
    ensures mgr.Valid()
    ensures var o := Serve(mgr.web, old(mgr.View()), old(io.unread));
      && mgr.View() == o.mgr && io.sent == [Frame("state", Str("acord"))] + o.replies
      && io.unread == o.unread && provider == o.provider
      && OneReplyEach(old(io.unread), o)
  {
    ServeShape(mgr.web, mgr.View(), io.unread);
    hide OneReplyEach, Serve;
    io.Push(STATE_FRAME);
    provider := ServeRequests(mgr, io);
  }

  /** One reply a request, the one for it, up to where the session stops, which only a request for assets
      makes it do; what it left is untouched; and it goes to a provider exactly when the last request
      answered names one, and to that one. */
  ghost predicate OneReplyEach(reqs: seq<Frame>, o: Outcome) {
    var n := |o.replies|;
    && n <= |reqs|
    && (forall k | 0 <= k < n :: IsAnswer(reqs[k], o.replies[k]))
    && (o.provider.Some? ==> n > 0 && o.unread == reqs[n..] && NamesProvider(reqs[n - 1], o.provider.value))
    && (o.provider.None? && n == |reqs| ==> o.unread == [])
    && (o.provider.None? && n < |reqs| ==> o.unread == reqs[n + 1..] && reqs[n].op == "make_assets_available")
    && (forall k | 0 <= k < n && LoadsProvider(reqs[k]) :: o.provider.Some? && k == n - 1)
  }

  lemma PutKeepsShape(reqs: seq<Frame>, reply: Frame, o: Outcome)
    requires reqs != [] && OneReplyEach(reqs[1..], o) && !LoadsProvider(reqs[0]) && IsAnswer(reqs[0], reply)
    ensures OneReplyEach(reqs, Put(reply, o))
  {
    hide IsAnswer, LoadsProvider, NamesProvider;
    var n, p := |o.replies|, Put(reply, o);
    assert forall k | 0 <= k < n :: reqs[k + 1] == reqs[1..][k];
    assert reqs[n + 1..] == reqs[1..][n..];
    forall k | 0 <= k < |p.replies|
      ensures IsAnswer(reqs[k], p.replies[k])
      ensures LoadsProvider(reqs[k]) ==> o.provider.Some? && k == n
    {
      assert k > 0 ==> reqs[k] == reqs[1..][k - 1] && p.replies[k] == o.replies[k - 1];
    }
  }

  lemma AnswerIsAnswer(web: Web, m: Mgr, f: Frame)
    ensures var answer := RequestAnswer(web, m, f).1;
      && (answer.Replied? ==> IsAnswer(f, answer.f) && !LoadsProvider(f))
      && (answer.Loaded? ==> IsAnswer(f, Frame("load_provider", Null)) && NamesProvider(f, answer.name))
      && (answer.Stopped? ==> f.op == "make_assets_available")
  {
    LoadsExact(f);
    if f.op == OP_ASSETS && Strings(f.data).Some? {
      StringsExact(f.data, Strings(f.data).value);
      var paths := ServeAll(web, m, Strings(f.data).value).1;
      if paths.Some? {
        StrArrayExact(paths.value);
      }
      hide ServeAll, StrArray, Strings;
    } else if Loads(f) {
      ProvidedNames(f, ProviderName(f.data).value);
    }
  }

  lemma {:induction false} ServeShape(web: Web, m: Mgr, reqs: seq<Frame>)
    ensures OneReplyEach(reqs, Serve(web, m, reqs))
    decreases |reqs|
  {
    if reqs == [] {
    } else {
      hide RequestAnswer, IsAnswer, LoadsProvider, NamesProvider;
      var (n, answer) := RequestAnswer(web, m, reqs[0]);
      AnswerIsAnswer(web, m, reqs[0]);
      if answer.Replied? {
        ServeShape(web, n, reqs[1..]);
        hide OneReplyEach;
        PutKeepsShape(reqs, answer.f, Serve(web, n, reqs[1..]));
      }
    }
  }

  /** A request to load a provider by its name is granted, whatever else it says, and what follows it goes to
      that provider. */
  lemma LoadIsGranted(web: Web, m: Mgr, req: Frame, name: string, rest: seq<Frame>)
    requires NamesProvider(req, name)
    ensures Serve(web, m, [req] + rest) == Outcome(m, [Frame("load_provider", Null)], rest, Some(name))
  {
    ProviderNameExact(req, name);
    hide NamesProvider, ProviderName, Strings;
    assert ([req] + rest)[1..] == rest;
  }

  /** One without a name is refused, and the session goes on. */
  lemma LoadIsRefused(web: Web, m: Mgr, req: Frame, rest: seq<Frame>)
    requires req.op == "load_provider" && !LoadsProvider(req)
    ensures exists f: Frame :: f.op == "error" && Serve(web, m, [req] + rest) == Put(f, Serve(web, m, rest))
  {
    LoadsExact(req);
    hide LoadsProvider, ProviderName, Strings;
    assert ([req] + rest)[1..] == rest;
    var (n, answer) := RequestAnswer(web, m, req);
    assert Serve(web, m, [req] + rest) == Finish(web, n, answer, rest);
    assert answer.f.op == "error" && n == m;
  }

  // ---- the loop and the step system agree ----

  /** What the loop would make of a state of the step system with one client: what was sent, the answer
      it is at, and what is left. */
  ghost function Ahead(web: Web, s: System): Outcome
    requires |s.clients| == 1
  {
    PutAll(s.clients[0].sent, Rest(web, s, s.clients[0]))
  }

  ghost function Rest(web: Web, s: System, c: Client): Outcome {
    match c.pc
    case Greet => Put(STATE_FRAME, Serve(web, s.mgr, c.unread))
    case Ready => Serve(web, s.mgr, c.unread)
    case AwaitState(h, _) => Asking(web, s, c, h)
    case Ask(h, _) => Asking(web, s, c, h)
    case AwaitResult(h, _) =>
      var b := BatchOf(s, h);
      if b.None? || b.value >= |s.served| then Asking(web, s, c, h)
      else Finish(web, s.mgr, ResultAnswer(s.served[b.value].paths), c.unread)
    case Give(_, reply) => Finish(web, s.mgr, Replied(reply), c.unread)
    case Refuse(_, reply) => Finish(web, s.mgr, Replied(reply), c.unread)
    case Accept(_, name) => Finish(web, s.mgr, Loaded(name), c.unread)
    case Provided(name) => Outcome(s.mgr, [], c.unread, Some(name))
    case Over(_, _) => Outcome(s.mgr, [], c.unread, None)
  }

  ghost function Asking(web: Web, s: System, c: Client, h: Handled): Outcome {
    var (n, answer) := RequestAnswer(web, s.mgr, h.req);
    Finish(web, n, answer, c.unread)
  }

  function ResultAnswer(paths: Option<seq<string>>): Answer {
    if paths.None? then Stopped else Replied(Frame(OP_ASSETS, StrArray(paths.value)))
  }

  ghost predicate Alone(web: Web, first: Mgr, input: seq<Frame>, s: System) {
    Fine(web, first, [input], s) && |s.clients| == 1 && !s.clients[0].gone
  }

  /** Taking the next request. */
  lemma ReadyKeepsAhead(web: Web, first: Mgr, input: seq<Frame>, s: System)
    requires Alone(web, first, input, s) && ClientCan(s, 0) && s.clients[0].pc == Ready
    ensures var n := ClientNext(s, 0);
      |n.clients| == 1 && n.clients[0].sent == s.clients[0].sent && n.clients[0].gone == s.clients[0].gone
    ensures Rest(web, ClientNext(s, 0), ClientNext(s, 0).clients[0]) == Rest(web, s, s.clients[0])
  {
    hide Fine, ServeAll, StrArray, Strings, ProviderName;
    var c, n := s.clients[0], ClientNext(s, 0);
    var (m, answer) := RequestAnswer(web, s.mgr, c.unread[0]);
    assert Rest(web, s, c) == Finish(web, m, answer, c.unread[1..]);
    var d := n.clients[0];
    assert d.unread == c.unread[1..] && n.mgr == s.mgr;
    if d.pc.AwaitState? {
      assert d.pc.h.req == c.unread[0];
      assert Rest(web, n, d) == Asking(web, n, d, d.pc.h);
    }
  }

  /** Talking to the inner session. */
  lemma TalkKeepsAhead(web: Web, first: Mgr, input: seq<Frame>, s: System)
    requires Alone(web, first, input, s) && ClientCan(s, 0)
    requires var pc := s.clients[0].pc; pc.AwaitState? || pc.Ask?
    ensures var n := ClientNext(s, 0); |n.clients| == 1 && n.clients[0].(pc := Ready) == s.clients[0].(pc := Ready)
    ensures Rest(web, ClientNext(s, 0), ClientNext(s, 0).clients[0]) == Rest(web, s, s.clients[0])
  {
    var c := s.clients[0];
    assert ClientFine(s, 0, c, [input][0]);
    assert SessionOk(s, Inner(c.pc).value);
    hide Fine, ClientFine, SessionOk, ServeAll, StrArray, Serve, Finish, RequestAnswer, ResultAnswer;
  }

  /** What is there when the result can be polled: the batch's paths, or that it died. */
  lemma ResultIsBatch(web: Web, first: Mgr, input: seq<Frame>, s: System)
    requires Alone(web, first, input, s) && ClientCan(s, 0) && s.clients[0].pc.AwaitResult?
    ensures var pc := s.clients[0].pc; var b := BatchOf(s, pc.h); var x := s.sessions[pc.h.session.value];
      && b.Some? && b.value < |s.served|
      && (if x.fromMgr == [] then s.served[b.value].paths.None?
          else s.served[b.value].paths.Some? && x.fromMgr[0].data == StrArray(s.served[b.value].paths.value))
  {
    assert SessionOk(s, Inner(s.clients[0].pc).value);
    assert ClientFine(s, 0, s.clients[0], [input][0]);
    hide Linear, BatchesApart, BatchesRequested, StrArray, Strings, Answers;
  }

  lemma ResultStep(s: System)
    requires |s.clients| == 1 && ClientCan(s, 0) && s.clients[0].pc.AwaitResult?
    ensures var n, pc := ClientNext(s, 0), s.clients[0].pc; var x := s.sessions[pc.h.session.value];
      && |n.clients| == 1 && n.mgr == s.mgr
      && n.clients[0] == s.clients[0].(pc :=
           if x.fromMgr == [] then Over([pc.h.req], NoResult(pc.h.session.value))
           else Give(pc.h, x.fromMgr[0].(op := OP_ASSETS)))
  {
  }

  lemma ResultRest(web: Web, s: System, c: Client, b: nat, n: System, d: Client)
    requires c.pc.AwaitResult? && BatchOf(s, c.pc.h) == Some(b) && b < |s.served|
    requires n.mgr == s.mgr && d.unread == c.unread
    requires s.served[b].paths.None? ==> d.pc.Over?
    requires s.served[b].paths.Some? ==>
      d.pc.Give? && d.pc.reply == Frame(OP_ASSETS, StrArray(s.served[b].paths.value))
    ensures Rest(web, n, d) == Rest(web, s, c)
  {
  }

  lemma ResultKeepsAhead(web: Web, first: Mgr, input: seq<Frame>, s: System)
    requires Alone(web, first, input, s) && ClientCan(s, 0) && s.clients[0].pc.AwaitResult?
    ensures var n := ClientNext(s, 0); |n.clients| == 1 && n.clients[0].(pc := Ready) == s.clients[0].(pc := Ready)
    ensures Rest(web, ClientNext(s, 0), ClientNext(s, 0).clients[0]) == Rest(web, s, s.clients[0])
  {
    ResultIsBatch(web, first, input, s);
    ResultStep(s);
    hide *;
    var n := ClientNext(s, 0);
    ResultRest(web, s, s.clients[0], BatchOf(s, s.clients[0].pc.h).value, n, n.clients[0]);
  }

  lemma ReplyKeepsAhead(web: Web, s: System)
    requires |s.clients| == 1 && !s.clients[0].gone && ClientCan(s, 0)
    requires var pc := s.clients[0].pc; pc == Greet || pc.Give? || pc.Refuse? || pc.Accept?
    ensures |ClientNext(s, 0).clients| == 1 && !ClientNext(s, 0).clients[0].gone
    ensures Ahead(web, ClientNext(s, 0)) == Ahead(web, s)
  {
    hide Serve;
    var c := s.clients[0];
    match c.pc
    case Greet => PutLast(c.sent, STATE_FRAME, Serve(web, s.mgr, c.unread));
    case Accept(_, name) =>
      var done := Outcome(s.mgr, [], c.unread, Some(name));
      assert [Frame(OP_LOAD, Null)] + done.replies == [Frame(OP_LOAD, Null)];
      PutLast(c.sent, Frame(OP_LOAD, Null), done);
    case Give(_, reply) => PutLast(c.sent, reply, Serve(web, s.mgr, c.unread));
    case Refuse(_, reply) => PutLast(c.sent, reply, Serve(web, s.mgr, c.unread));
  }

  lemma ClientKeepsAhead(web: Web, first: Mgr, input: seq<Frame>, s: System)
    requires Alone(web, first, input, s) && ClientCan(s, 0)
    ensures |ClientNext(s, 0).clients| == 1 && !ClientNext(s, 0).clients[0].gone
    ensures Ahead(web, ClientNext(s, 0)) == Ahead(web, s)
  {
    hide ClientNext, Rest, Fine;
    var pc := s.clients[0].pc;
    if pc == Ready {
      ReadyKeepsAhead(web, first, input, s);
    } else if pc.AwaitState? || pc.Ask? {
      TalkKeepsAhead(web, first, input, s);
    } else if pc.AwaitResult? {
      ResultKeepsAhead(web, first, input, s);
    } else {
      ReplyKeepsAhead(web, s);
    }
  }

  lemma MgrKeepsAhead(web: Web, first: Mgr, input: seq<Frame>, s: System, j: nat)
    requires Alone(web, first, input, s) && MgrCan(s, j)
    ensures |MgrNext(web, s, j).clients| == 1 && !MgrNext(web, s, j).clients[0].gone
    ensures Ahead(web, MgrNext(web, s, j)) == Ahead(web, s)
  {
    hide Linear, BatchesApart, BatchesRequested, ServeAll, Serve, Finish;
    var c := s.clients[0];
    assert ClientFine(s, 0, c, [input][0]);
    assert SessionOk(s, j);
    AddressesOfArray(s.sessions[j].urls);
    hide StrArray, Addresses, Strings;
  }

  lemma {:induction false} AheadStays(web: Web, first: Mgr, input: seq<Frame>, s: System, sts: seq<Step>, last: System)
    requires Alone(web, first, input, s) && Runs(web, s, sts, last) && forall st | st in sts :: !st.Leave?
    ensures Alone(web, first, input, last) && Ahead(web, last) == Ahead(web, s)
    decreases |sts|
  {
    hide Fine, Ahead, ClientNext, MgrNext;
    if sts == [] {
    } else {
      assert sts[0] in sts;
      FineKept(web, first, [input], s, sts[0]);
      if sts[0].ClientStep? {
        ClientKeepsAhead(web, first, input, s);
      } else {
        MgrKeepsAhead(web, first, input, s, sts[0].j);
      }
      AheadStays(web, first, input, Do(web, s, sts[0]), sts[1..], last);
    }
  }

  /** A client alone with the asset manager: however its session and its inner sessions take turns, once
      nothing is left to do it has been sent what the loop sends, with the same requests unread, the
      same provider, and the same cache, files and attempts. */
  lemma LoopAgrees(web: Web, first: Mgr, input: seq<Frame>, sts: seq<Step>, s: System)
    requires Runs(web, Start([input], first), sts, s) && Quiet(s) && forall st | st in sts :: !st.Leave?
    ensures |s.clients| == 1
    ensures var c, o := s.clients[0], Serve(web, first, input);
      && c.sent == [STATE_FRAME] + o.replies && c.unread == o.unread && s.mgr == o.mgr
      && o.provider == if c.pc.Provided? then Some(c.pc.provider) else None
  {
    var begin := Start([input], first);
    StartFine(web, first, [input]);
    AheadStays(web, first, input, begin, sts, s);
    assert Ahead(web, begin) == Put(STATE_FRAME, Serve(web, first, input)) by {
      assert begin.clients[0] == Client(input, [], Greet, [], false);
      PutAllSimple([], Put(STATE_FRAME, Serve(web, first, input)));
    }
    hide Runs;
    AheadAtEnd(web, first, input, s);
  }

  lemma AheadAtEnd(web: Web, first: Mgr, input: seq<Frame>, s: System)
    requires Alone(web, first, input, s) && Quiet(s)
    ensures var c := s.clients[0];
      Ahead(web, s) == Outcome(s.mgr, c.sent, c.unread, if c.pc.Provided? then Some(c.pc.provider) else None)
  {
    QuietIsDone(web, first, [input], s);
    hide Fine, Serve;
    var c := s.clients[0];
    PutAllSimple(c.sent, Rest(web, s, c));
    if c.pc == Ready {
      assert !ClientCan(s, 0);
      ServeNothing(web, s.mgr);
    }
  }

  lemma ServeNothing(web: Web, m: Mgr)
    ensures Serve(web, m, []) == Outcome(m, [], [], None)
  {
  }

  lemma PutAllSimple(fs: seq<Frame>, o: Outcome)
    ensures fs == [] ==> PutAll(fs, o) == o
    ensures o.replies == [] ==> PutAll(fs, o) == o.(replies := fs)
  {
    assert [] + o.replies == o.replies;
    assert fs + [] == fs;
  }
}
