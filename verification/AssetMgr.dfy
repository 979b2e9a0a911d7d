/** The asset manager: a cache of paths in front of a directory lookup and a download to a temporary
    file that is then moved into place. A batch of addresses is served without suspending, so what
    any number of sessions do together is some sequence of batches. */
module AssetMgr {
  import opened Wrappers
  import opened Frames
  import opened Generator
  import opened Redirects
  import opened FileSystem

  const CHUNK: nat := 1024 * 1024

  /** The last reply that the n-th download attempt comes to. */
  type Web = (nat, string) -> Reply

  datatype Attempt = Attempt(url: string, reply: Reply, published: bool)

  datatype Mgr = Mgr(dir: string, accepts: Accepts, cache: map<string, string>, files: Files,
                     attempts: seq<Attempt>) {
    function Target(url: string): string { dir + "/" + FileName(url) }

    function Temp(url: string): string { dir + "/.acord-dl" + "/" + FileName(url) }

    function TempDir(): string { dir + "/.acord-dl" }

    /** The manager that has no cache. */
    function Plain(): Mgr { this.(cache := map[]) }
  }

  datatype Served = Path(path: string) | NoPath | Threw

  // ---- one download ----

  /** What the download loop writes to the file, and whether it came to the end. */
  function Collect(g: Gen): (seq<Byte>, bool)
    requires g.Valid()
    decreases |g.resp.body| - g.pos, if g.done then 0 else 1
  {
    if g.done then ([], true) else
    var (h, r) := g.Next(CHUNK);
    if r.Failure? then ([], false) else
    var (rest, ok) := Collect(h);
    (r.value + rest, ok)
  }

  /** Nothing goes wrong while this response is read. */
  predicate Sound(resp: Response) {
    resp.failAt.None? || resp.failAt.value > |resp.body| || (resp.failAt.value == |resp.body| && !resp.late)
  }

  /** The loop comes to the end exactly for a sound response, and has then written exactly the body;
      otherwise it has written a prefix. */
  lemma {:induction false} CollectExact(g: Gen)
    requires g.Valid() && !g.failed
    requires g.resp.failAt.Some? ==> g.pos <= g.resp.failAt.value
    ensures var (content, ok) := Collect(g);
      && (ok <==> g.done || Sound(g.resp))
      && content <= g.resp.body[g.pos..]
      && (ok ==> content == g.resp.body[g.pos..])
    decreases |g.resp.body| - g.pos, if g.done then 0 else 1
  {
    if g.done {
    } else {
      var (h, r) := g.Next(CHUNK);
      if r.Success? {
        CollectExact(h);
        assert g.resp.body[g.pos..] == g.resp.body[g.pos..h.pos] + h.resp.body[h.pos..];
      }
    }
  }

  /** The download loop asks for a mebibyte at a time: it writes what calls with such buffers give until the
      generator is done. */
  lemma {:induction false} CollectIsCalls(g: Gen, n: nat)
    requires g.Valid() && !g.failed && Calls(g, Repeat(1048576, n)).0.done
    ensures var (h, rs) := Calls(g, Repeat(1048576, n)); Collect(g) == (Joined(rs), !h.failed)
    decreases n
  {
    if g.done {
      DoneStays(g, Repeat(1048576, n));
      EmptyJoined(Calls(g, Repeat(1048576, n)).1);
    } else {
      var (h, first) := g.Next(1048576);
      var rooms := Repeat(1048576, n);
      assert rooms[0] == 1048576 && rooms[1..] == Repeat(1048576, n - 1);
      var rs := Calls(g, rooms).1;
      assert rs[0] == first && rs[1..] == Calls(h, rooms[1..]).1;
      assert Calls(g, rooms).0 == Calls(h, rooms[1..]).0;
      assert Joined(rs) == (if first.Success? then first.value else []) + Joined(rs[1..]);
      if h.failed {
        DoneStays(h, rooms[1..]);
        EmptyJoined(rs[1..]);
      } else {
        CollectIsCalls(h, n - 1);
      }
    }
  }

  lemma {:induction false} EmptyJoined(rs: seq<Result<seq<Byte>, string>>)
    requires forall i | 0 <= i < |rs| :: rs[i] == Success([])
    ensures Joined(rs) == []
  {
    if rs == [] {
    } else {
      EmptyJoined(rs[1..]);
    }
  }

  function Download(web: Web, m: Mgr, url: string): (Mgr, Served) {
    var (touched, ok) := Touch(m.files, m.accepts, m.Temp(url));
    if !ok then (m.(files := touched), Threw) else
    var reply := web(|m.attempts|, url);
    var content := if reply.Found? then Collect(Begin(reply.resp)) else ([], false);
    var files := touched[m.Temp(url) := File(content.0)];
    var (moved, published) := if content.1 then Move(files, m.accepts, m.Temp(url), m.Target(url)) else (files, false);
    var tried := m.(files := moved, attempts := m.attempts + [Attempt(url, reply, published)]);
    if published then (tried.(cache := m.cache[url := m.Target(url)]), Path(m.Target(url)))
    else (tried, NoPath)
  }

  function ServeUrl(web: Web, m: Mgr, url: string): (Mgr, Served) {
    if url in m.cache then (m, Path(m.cache[url]))
    else if IsFile(m.files, m.Target(url)) then
      (m.(cache := m.cache[url := m.Target(url)]), Path(m.Target(url)))
    else Download(web, m, url)
  }

  // ---- when an asset can be had ----

  /** A file can be moved to the asset's path. */
  predicate Free(m: Mgr, url: string) {
    && m.Target(url) != m.TempDir() && !IsDirectory(m.files, m.Target(url))
    && Takes(m.accepts, m.Target(url))
  }

  /** The asset is there, or the next download attempt will come to its complete body. */
  predicate Obtains(web: Web, m: Mgr, url: string) {
    || IsFile(m.files, m.Target(url))
    || (Free(m, url) && var reply := web(|m.attempts|, url); reply.Found? && Sound(reply.resp))
  }

  // ---- batches ----

  /** A batch so far, with one more address served; None once the session has died. */
  function Extend(so: (Mgr, Option<seq<string>>), step: (Mgr, Served)): (Mgr, Option<seq<string>>) {
    if so.1.None? then so else
    match step.1
    case Threw => (step.0, None)
    case NoPath => (step.0, Some(so.1.value + [""]))
    case Path(p) => (step.0, Some(so.1.value + [p]))
  }

  /** Serves the addresses in order; None when the session died on one of them. */
  function ServeAll(web: Web, m: Mgr, urls: seq<string>): (r: (Mgr, Option<seq<string>>))
    ensures r.1.Some? ==> |r.1.value| == |urls|
  {
    if urls == [] then (m, Some([])) else
    var so := ServeAll(web, m, urls[..|urls| - 1]);
    Extend(so, ServeUrl(web, so.0, urls[|urls| - 1]))
  }

  /** What all sessions together make of the manager: the batches in the order they were served. */
  function ServeBatches(web: Web, m: Mgr, batches: seq<seq<string>>): (r: (Mgr, seq<Option<seq<string>>>))
    ensures |r.1| == |batches|
  {
    if batches == [] then (m, []) else
    var (before, replies) := ServeBatches(web, m, batches[..|batches| - 1]);
    var (after, reply) := ServeAll(web, before, batches[|batches| - 1]);
    (after, replies + [reply])
  }

  // ---- paths ----

  lemma Paths(m: Mgr, url: string)
    ensures FileName(m.Target(url)) == FileName(m.Temp(url)) == FileName(url)
    ensures Parent(m.Temp(url)) == m.TempDir()
  {
    FileNameIsPlain(url);
    JoinThenSplit(m.dir, FileName(url));
    JoinThenSplit(m.TempDir(), FileName(url));
  }

  /** No temporary file is ever at the path of an asset. */
  lemma PathsApart(m: Mgr, url: string, other: string)
    ensures m.Temp(url) != m.Target(other)
    ensures m.Target(url) == m.Target(other) <==> FileName(url) == FileName(other)
  {
    FileNameIsPlain(other);
    var t, u := m.Temp(url), m.Target(other);
    var n := |m.dir| + 1;
    assert u[n..] == FileName(other);
    assert t[n..] == ".acord-dl" + "/" + FileName(url);
    assert t[n..][9] == '/';
    assert m.Target(url)[n..] == FileName(url);
  }

  // ---- the cache changes nothing ----

  ghost predicate CacheTrue(m: Mgr) {
    forall url | url in m.cache :: m.cache[url] == m.Target(url) && IsFile(m.files, m.cache[url])
  }

  /** A step never takes an asset's file away, and never changes it. */
  ghost predicate Keeps(m: Mgr, n: Mgr) {
    && n.dir == m.dir && n.accepts == m.accepts
    && forall url :: IsFile(m.files, m.Target(url)) ==>
         IsFile(n.files, m.Target(url)) && n.files[m.Target(url)] == m.files[m.Target(url)]
  }

  lemma TempDirPath(m: Mgr)
    ensures Parent(m.TempDir()) == m.dir && m.TempDir() != ""
  {
    assert m.TempDir() == m.dir + "/" + ".acord-dl";
    JoinThenSplit(m.dir, ".acord-dl");
  }

  /** Touching the temporary file leaves what is at every asset's path, save that its directory may
      come to be. */
  lemma TouchedPaths(m: Mgr, url: string, other: string)
    ensures var (touched, ok) := Touch(m.files, m.accepts, m.Temp(url)); var p := m.Target(other);
      && (p in m.files ==> p in touched && touched[p] == m.files[p])
      && (p in touched && p !in m.files ==> p == m.TempDir() && touched[p].Directory?)
      && (ok ==> IsFile(touched, m.Temp(url)) && IsDirectory(touched, m.TempDir()) && m.Temp(url) != p)
  {
    Paths(m, url);
    PathsApart(m, url, other);
    TouchAdds(m.files, m.accepts, m.Temp(url));
    TempDirPath(m);
    hide Touch, FileName, Parent;
    assert |Parent(m.TempDir())| < |m.Target(other)|;
  }

  lemma DownloadKeeps(web: Web, m: Mgr, url: string)
    requires !IsFile(m.files, m.Target(url))
    ensures var (n, r) := Download(web, m, url); Keeps(m, n) && (r.Path? ==> IsFile(n.files, m.Target(url)))
  {
    hide Collect, FileName, Parent, Touch;
    Paths(m, url);
    TouchedPaths(m, url, url);
    forall other | IsFile(m.files, m.Target(other))
      ensures var n := Download(web, m, url).0;
        IsFile(n.files, m.Target(other)) && n.files[m.Target(other)] == m.files[m.Target(other)]
    {
      PathsApart(m, url, other);
      Paths(m, other);
      TouchedPaths(m, url, other);
    }
  }

  /** What one download attempt comes to: exactly when nothing stands in the way of the move and the
      response is complete, the asset's file holds the complete body. Leftovers in the temporary
      file play no part. */
  lemma DownloadEffect(web: Web, m: Mgr, url: string)
    requires !IsFile(m.files, m.Target(url))
    ensures var (n, r) := Download(web, m, url); var reply := web(|m.attempts|, url);
      && (r == Threw <==> !Touch(m.files, m.accepts, m.Temp(url)).1)
      && (r == Threw ==> n.attempts == m.attempts)
      && (r != Threw ==> n.attempts == m.attempts + [Attempt(url, reply, r.Path?)])
      && (r != Threw ==> (r.Path? <==> Obtains(web, m, url)))
      && (r.Path? ==> r.path == m.Target(url) && reply.Found? && Sound(reply.resp))
      && (r.Path? ==> IsFile(n.files, m.Target(url)) && n.files[m.Target(url)] == File(reply.resp.body))
  {
    hide FileName, Parent, Touch;
    Paths(m, url);
    TouchedPaths(m, url, url);
    var reply := web(|m.attempts|, url);
    if reply.Found? {
      CollectExact(Begin(reply.resp));
    }
  }

  /** What is cached: serving an address that gets a path leaves that path in the cache, no other entry
      ever changes, and an address in the cache is answered from it with nothing else done. */
  lemma ServeCaches(web: Web, m: Mgr, url: string)
    ensures var (n, r) := ServeUrl(web, m, url);
      && (r.Path? ==> url in n.cache && n.cache[url] == r.path)
      && (!r.Path? ==> n.cache == m.cache)
      && (forall other | other != url :: (other in n.cache <==> other in m.cache)
            && (other in m.cache ==> n.cache[other] == m.cache[other]))
      && (url in m.cache ==> n == m && r == Path(m.cache[url]))
      && (url !in m.cache && IsFile(m.files, m.Target(url)) ==>
            r == Path(m.Target(url)) && n.files == m.files && n.attempts == m.attempts)
  {
    hide Collect, Touch, Move, FileName;
  }

  /** The only asset's file that a download adds is that of its own name. */
  lemma DownloadOnlyAdds(web: Web, m: Mgr, url: string, other: string)
    requires !IsFile(m.files, m.Target(url))
    ensures var (n, r) := Download(web, m, url);
      IsFile(n.files, m.Target(other)) ==>
        IsFile(m.files, m.Target(other)) || (r.Path? && FileName(other) == FileName(url))
  {
    hide Collect, FileName, Parent, Touch;
    Paths(m, url);
    PathsApart(m, url, other);
    PathsApart(m, url, url);
    TouchedPaths(m, url, other);
  }

  lemma ServeKeeps(web: Web, m: Mgr, url: string)
    requires CacheTrue(m)
    ensures var n := ServeUrl(web, m, url).0; Keeps(m, n) && CacheTrue(n)
  {
    hide Touch, Move, Collect, FileName;
    var n := ServeUrl(web, m, url).0;
    if url !in m.cache && !IsFile(m.files, m.Target(url)) {
      DownloadKeeps(web, m, url);
    }
    forall other | other in n.cache ensures n.cache[other] == n.Target(other) && IsFile(n.files, n.cache[other]) {
      assert IsFile(m.files, m.Target(other)) || other == url;
    }
  }

  /** How an address is served without a cache. */
  function ServePlain(web: Web, m: Mgr, url: string): (Mgr, Served) {
    if IsFile(m.files, m.Target(url)) then (m, Path(m.Target(url)))
    else var (n, r) := Download(web, m, url); (n.Plain(), r)
  }

  function ServeAllPlain(web: Web, m: Mgr, urls: seq<string>): (Mgr, Option<seq<string>>) {
    if urls == [] then (m, Some([])) else
    var so := ServeAllPlain(web, m, urls[..|urls| - 1]);
    Extend(so, ServePlain(web, so.0, urls[|urls| - 1]))
  }

  function ServeBatchesPlain(web: Web, m: Mgr, batches: seq<seq<string>>): (Mgr, seq<Option<seq<string>>>) {
    if batches == [] then (m, []) else
    var (before, replies) := ServeBatchesPlain(web, m, batches[..|batches| - 1]);
    var (after, reply) := ServeAllPlain(web, before, batches[|batches| - 1]);
    (after, replies + [reply])
  }

  /** The cache changes neither the reply nor anything else exactly when the entry used, if any, is
      the path of a file that is there. */
  lemma ServeIgnoresCacheExactly(web: Web, m: Mgr, url: string)
    ensures var (n, r) := ServeUrl(web, m, url);
      var (p, s) := ServePlain(web, m.Plain(), url);
      (r == s && n.Plain() == p.Plain())
        <==> (url in m.cache ==> m.cache[url] == m.Target(url) && IsFile(m.files, m.Target(url)))
  {
  }

  lemma {:induction false} ServeAllKeeps(web: Web, m: Mgr, urls: seq<string>)
    requires CacheTrue(m)
    ensures var n := ServeAll(web, m, urls).0; Keeps(m, n) && CacheTrue(n)
  {
    if urls == [] {
    } else {
      ServeAllKeeps(web, m, urls[..|urls| - 1]);
      var (before, paths) := ServeAll(web, m, urls[..|urls| - 1]);
      ServeKeeps(web, before, urls[|urls| - 1]);
      KeepsOn(m, before, ServeUrl(web, before, urls[|urls| - 1]).0);
    }
  }

  lemma KeepsOn(m: Mgr, n: Mgr, o: Mgr)
    requires Keeps(m, n) && Keeps(n, o)
    ensures Keeps(m, o)
  {
    forall url | IsFile(m.files, m.Target(url))
      ensures IsFile(o.files, m.Target(url)) && o.files[m.Target(url)] == m.files[m.Target(url)]
    {
      assert m.Target(url) == n.Target(url);
    }
  }

  lemma {:induction false} BatchesKeep(web: Web, m: Mgr, batches: seq<seq<string>>)
    requires CacheTrue(m)
    ensures var n := ServeBatches(web, m, batches).0; Keeps(m, n) && CacheTrue(n)
  {
    if batches == [] {
    } else {
      BatchesKeep(web, m, batches[..|batches| - 1]);
      var before := ServeBatches(web, m, batches[..|batches| - 1]).0;
      ServeAllKeeps(web, before, batches[|batches| - 1]);
      KeepsOn(m, before, ServeAll(web, before, batches[|batches| - 1]).0);
    }
  }

  lemma {:induction false} ServeAllIgnoresCache(web: Web, m: Mgr, urls: seq<string>)
    requires CacheTrue(m)
    ensures var (n, r) := ServeAll(web, m, urls);
      ServeAllPlain(web, m.Plain(), urls) == (n.Plain(), r)
  {
    if urls == [] {
    } else {
      var front, last := urls[..|urls| - 1], urls[|urls| - 1];
      ServeAllKeeps(web, m, front);
      ServeAllIgnoresCache(web, m, front);
      ServeIgnoresCacheExactly(web, ServeAll(web, m, front).0, last);
      PlainStaysPlain(web, ServeAll(web, m, front).0.Plain(), last);
    }
  }

  lemma PlainStaysPlain(web: Web, m: Mgr, url: string)
    requires m == m.Plain()
    ensures var n := ServePlain(web, m, url).0; n == n.Plain()
  {
  }

  /** Over every run of any number of sessions, the manager with its cache gives the same replies as
      the one without, leaves the same files, and makes the same download attempts in the same order. */
  lemma {:induction false} CacheRefines(web: Web, m: Mgr, batches: seq<seq<string>>)
    requires CacheTrue(m)
    ensures var (n, replies) := ServeBatches(web, m, batches);
      ServeBatchesPlain(web, m.Plain(), batches) == (n.Plain(), replies)
  {
    if batches == [] {
    } else {
      var front := batches[..|batches| - 1];
      BatchesKeep(web, m, front);
      CacheRefines(web, m, front);
      ServeAllIgnoresCache(web, ServeBatches(web, m, front).0, batches[|batches| - 1]);
    }
  }
}
