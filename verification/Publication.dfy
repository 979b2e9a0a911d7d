/** What the asset directory holds after any run: complete bodies of addresses that were asked for. */
module Publication {
  import opened FileSystem
  import opened AssetMgr

  /** The attempt whose download is the file at the path for this name. */
  ghost predicate PublishedBy(m: Mgr, i: nat, url: string)
    requires i < |m.attempts|
  {
    var a := m.attempts[i];
    && a.published && FileName(a.url) == FileName(url)
    && a.reply.Found? && Sound(a.reply.resp) && IsFile(m.files, m.Target(url))
    && m.files[m.Target(url)] == File(a.reply.resp.body)
  }

  /** Each asset file that was not there at first is a published attempt's complete body. */
  ghost predicate FilesHaveAttempts(first: Mgr, m: Mgr) {
    forall url | IsFile(m.files, m.Target(url)) && !IsFile(first.files, m.Target(url)) ::
      exists i | 0 <= i < |m.attempts| :: PublishedBy(m, i, url)
  }

  /** Each published attempt made the file for its name, where there was none at first. */
  ghost predicate AttemptsHaveFiles(first: Mgr, m: Mgr) {
    forall i | 0 <= i < |m.attempts| && m.attempts[i].published ::
      PublishedBy(m, i, m.attempts[i].url) && !IsFile(first.files, m.Target(m.attempts[i].url))
  }

  ghost predicate NamesOnce(m: Mgr) {
    forall i, j | 0 <= i < j < |m.attempts| && m.attempts[i].published && m.attempts[j].published ::
      FileName(m.attempts[i].url) != FileName(m.attempts[j].url)
  }

  /** An attempt is made only for an address asked for, and had the reply that the web gave it. */
  ghost predicate Logged(web: Web, m: Mgr, asked: set<string>) {
    forall i | 0 <= i < |m.attempts| ::
      m.attempts[i].url in asked && m.attempts[i].reply == web(i, m.attempts[i].url)
  }

  ghost predicate FilesPublished(first: Mgr, m: Mgr) {
    Keeps(first, m) && FilesHaveAttempts(first, m) && AttemptsHaveFiles(first, m) && NamesOnce(m)
  }

  ghost predicate Published(web: Web, first: Mgr, m: Mgr, asked: set<string>) {
    FilesPublished(first, m) && Logged(web, m, asked)
  }

  function Asked(batches: seq<seq<string>>): set<string> {
    set urls, url | urls in batches && url in urls :: url
  }

  /** A name with no file yet has no published attempt. */
  lemma UnpublishedYet(first: Mgr, m: Mgr, url: string)
    requires FilesPublished(first, m) && !IsFile(m.files, m.Target(url))
    ensures forall i | 0 <= i < |m.attempts| && m.attempts[i].published ::
      FileName(m.attempts[i].url) != FileName(url)
    ensures !IsFile(first.files, m.Target(url))
  {
    assert m.Target(url) == first.Target(url);
    forall i | 0 <= i < |m.attempts| && m.attempts[i].published
      ensures FileName(m.attempts[i].url) != FileName(url)
    {
      PathsApart(m, url, m.attempts[i].url);
      assert PublishedBy(m, i, m.attempts[i].url);
    }
  }

  lemma PublishedStays(m: Mgr, n: Mgr, i: nat, url: string)
    requires i < |m.attempts| && PublishedBy(m, i, url) && Keeps(m, n) && m.attempts <= n.attempts
    ensures PublishedBy(n, i, url)
  {
  }

  /** Nothing was published: the files there are the same ones. */
  lemma PublicationStays(first: Mgr, m: Mgr, n: Mgr)
    requires FilesPublished(first, m) && Keeps(m, n) && m.attempts <= n.attempts
    requires forall i | |m.attempts| <= i < |n.attempts| :: !n.attempts[i].published
    requires forall url :: IsFile(n.files, m.Target(url)) ==> IsFile(m.files, m.Target(url))
    ensures FilesPublished(first, n)
  {
    hide Sound, IsFile, FileName;
    KeepsOn(first, m, n);
    forall url | IsFile(n.files, n.Target(url)) && !IsFile(first.files, n.Target(url))
      ensures exists i | 0 <= i < |n.attempts| :: PublishedBy(n, i, url)
    {
      assert n.Target(url) == m.Target(url);
      var i :| 0 <= i < |m.attempts| && PublishedBy(m, i, url);
      PublishedStays(m, n, i, url);
    }
    forall i | 0 <= i < |n.attempts| && n.attempts[i].published
      ensures PublishedBy(n, i, n.attempts[i].url) && !IsFile(first.files, n.Target(n.attempts[i].url))
    {
      PublishedStays(m, n, i, n.attempts[i].url);
    }
  }

  lemma NewFileHasAttempt(first: Mgr, m: Mgr, n: Mgr, last: nat, url: string)
    requires FilesHaveAttempts(first, m) && Keeps(m, n) && m.attempts <= n.attempts && last < |n.attempts|
    requires IsFile(n.files, n.Target(url)) && !IsFile(first.files, n.Target(url))
    requires !IsFile(m.files, m.Target(url)) ==> PublishedBy(n, last, url)
    ensures exists i | 0 <= i < |n.attempts| :: PublishedBy(n, i, url)
  {
    if IsFile(m.files, m.Target(url)) {
      assert n.Target(url) == m.Target(url);
      var i :| 0 <= i < |m.attempts| && PublishedBy(m, i, url);
      PublishedStays(m, n, i, url);
    }
  }

  lemma AttemptsKeepFiles(first: Mgr, m: Mgr, n: Mgr, a: Attempt)
    requires AttemptsHaveFiles(first, m) && Keeps(m, n) && n.attempts == m.attempts + [a] && a.published
    requires PublishedBy(n, |m.attempts|, a.url) && !IsFile(first.files, m.Target(a.url))
    ensures AttemptsHaveFiles(first, n)
  {
    forall i | 0 <= i < |n.attempts| && n.attempts[i].published
      ensures PublishedBy(n, i, n.attempts[i].url) && !IsFile(first.files, n.Target(n.attempts[i].url))
    {
      if i < |m.attempts| {
        assert n.attempts[i] == m.attempts[i];
        PublishedStays(m, n, i, n.attempts[i].url);
      }
    }
  }

  /** One name was published, by the last attempt. */
  lemma PublicationGrows(first: Mgr, m: Mgr, n: Mgr, a: Attempt)
    requires FilesPublished(first, m) && Keeps(m, n) && n.attempts == m.attempts + [a] && a.published
    requires !IsFile(m.files, m.Target(a.url)) && PublishedBy(n, |m.attempts|, a.url)
    requires forall url ::
      IsFile(n.files, m.Target(url)) ==> IsFile(m.files, m.Target(url)) || FileName(url) == FileName(a.url)
    ensures FilesPublished(first, n)
  {
    UnpublishedYet(first, m, a.url);
    assert FilesHaveAttempts(first, n) by {
      forall url | IsFile(n.files, n.Target(url)) && !IsFile(first.files, n.Target(url))
        ensures exists i | 0 <= i < |n.attempts| :: PublishedBy(n, i, url)
      {
        NewFileHasAttempt(first, m, n, |m.attempts|, url);
      }
    }
    AttemptsKeepFiles(first, m, n, a);
    KeepsOn(first, m, n);
  }

  lemma LoggedMore(web: Web, m: Mgr, n: Mgr, a: Attempt, asked: set<string>)
    requires Logged(web, m, asked) && (n.attempts == m.attempts || n.attempts == m.attempts + [a])
    requires a.url in asked && a.reply == web(|m.attempts|, a.url)
    ensures Logged(web, n, asked)
  {
    forall i | 0 <= i < |n.attempts|
      ensures n.attempts[i].url in asked && n.attempts[i].reply == web(i, n.attempts[i].url)
    {
      assert i < |m.attempts| ==> n.attempts[i] == m.attempts[i];
    }
  }

  lemma DownloadLogged(web: Web, m: Mgr, url: string, asked: set<string>)
    requires Logged(web, m, asked) && !IsFile(m.files, m.Target(url)) && url in asked
    ensures Logged(web, Download(web, m, url).0, asked)
  {
    DownloadEffect(web, m, url);
    hide *;
    var (n, r) := Download(web, m, url);
    LoggedMore(web, m, n, Attempt(url, web(|m.attempts|, url), r.Path?), asked);
  }

  lemma DownloadPublishes(web: Web, first: Mgr, m: Mgr, url: string, asked: set<string>)
    requires Published(web, first, m, asked) && !IsFile(m.files, m.Target(url)) && url in asked
    ensures Published(web, first, Download(web, m, url).0, asked)
  {
    DownloadLogged(web, m, url, asked);
    hide Download, Sound, Obtains, Logged;
    DownloadKeeps(web, m, url);
    DownloadEffect(web, m, url);
    var (n, r) := Download(web, m, url);
    forall other
      ensures IsFile(n.files, m.Target(other)) ==>
        IsFile(m.files, m.Target(other)) || (r.Path? && FileName(other) == FileName(url))
    {
      DownloadOnlyAdds(web, m, url, other);
    }
    if r.Path? {
      PublicationGrows(first, m, n, Attempt(url, web(|m.attempts|, url), true));
    } else {
      PublicationStays(first, m, n);
    }
  }

  lemma ServePublishes(web: Web, first: Mgr, m: Mgr, url: string, asked: set<string>)
    requires Published(web, first, m, asked) && url in asked
    ensures Published(web, first, ServeUrl(web, m, url).0, asked)
  {
    if url !in m.cache && !IsFile(m.files, m.Target(url)) {
      DownloadPublishes(web, first, m, url, asked);
    } else {
      PublicationStays(first, m, ServeUrl(web, m, url).0);
    }
  }

  lemma {:induction false} ServeAllPublishes(web: Web, first: Mgr, m: Mgr, urls: seq<string>, asked: set<string>)
    requires Published(web, first, m, asked) && forall url | url in urls :: url in asked
    ensures Published(web, first, ServeAll(web, m, urls).0, asked)
  {
    hide Published, ServeUrl;
    if urls == [] {
    } else {
      var front := urls[..|urls| - 1];
      ServeAllPublishes(web, first, m, front, asked);
      ServePublishes(web, first, ServeAll(web, m, front).0, urls[|urls| - 1], asked);
    }
  }

  lemma {:induction false} BatchesPublish(web: Web, first: Mgr, batches: seq<seq<string>>, asked: set<string>)
    requires first.attempts == [] && forall urls, url | urls in batches && url in urls :: url in asked
    ensures Published(web, first, ServeBatches(web, first, batches).0, asked)
  {
    if batches == [] {
    } else {
      var front := batches[..|batches| - 1];
      BatchesPublish(web, first, front, asked);
      ServeAllPublishes(web, first, ServeBatches(web, first, front).0, batches[|batches| - 1], asked);
    }
  }

  /** Attempt number i is why the file at this path is what it is: it was for an address asked for, with
      this file name, and the file holds the complete body that the web gave it. */
  ghost predicate MadeBy(web: Web, m: Mgr, i: nat, path: string, name: string, asked: set<string>)
    requires i < |m.attempts|
  {
    var a := m.attempts[i];
    && a.published && a.url in asked && FileName(a.url) == name
    && a.reply == web(i, a.url) && a.reply.Found? && Sound(a.reply.resp)
    && path in m.files && m.files[path] == File(a.reply.resp.body)
  }

  /** All or nothing, whatever fails and whatever an earlier failure left behind: an asset file is
      either one that was there at the start, with its bytes, or the complete body that the web gave
      an address with its name which some session had asked for; a name is published at most once,
      and never over an existing file. */
  lemma AllOrNothing(web: Web, first: Mgr, batches: seq<seq<string>>, url: string)
    requires first.attempts == []
    ensures var m := ServeBatches(web, first, batches).0; var path := first.Target(url);
      && (IsFile(first.files, path) ==>
            IsFile(m.files, path) && m.files[path] == first.files[path]
            && forall i | 0 <= i < |m.attempts| && m.attempts[i].published ::
                 FileName(m.attempts[i].url) != FileName(url))
      && (!IsFile(first.files, path) && IsFile(m.files, path) ==>
            exists i | 0 <= i < |m.attempts| :: MadeBy(web, m, i, path, FileName(url), Asked(batches)))
      && (forall i, j | 0 <= i < |m.attempts| && 0 <= j < |m.attempts| && m.attempts[i].published
            && m.attempts[j].published && FileName(m.attempts[i].url) == FileName(m.attempts[j].url) :: i == j)
      && (forall i | 0 <= i < |m.attempts| ::
            m.attempts[i].url in Asked(batches) && m.attempts[i].reply == web(i, m.attempts[i].url))
  {
    BatchesPublish(web, first, batches, Asked(batches));
    var m := ServeBatches(web, first, batches).0;
    hide ServeBatches, Asked;
    assert m.Target(url) == first.Target(url);
    if IsFile(first.files, first.Target(url)) {
      forall i | 0 <= i < |m.attempts| && m.attempts[i].published
        ensures FileName(m.attempts[i].url) != FileName(url)
      {
        PathsApart(m, url, m.attempts[i].url);
      }
    } else if IsFile(m.files, first.Target(url)) {
      var i :| 0 <= i < |m.attempts| && PublishedBy(m, i, url);
      assert MadeBy(web, m, i, first.Target(url), FileName(url), Asked(batches));
    }
  }

  // ---- whose bytes an address is given ----

  /** What the file at the served path holds: what was there under the name, or else the body this very
      address was just downloaded with. */
  lemma ServedContent(web: Web, m: Mgr, url: string)
    requires CacheTrue(m) && ServeUrl(web, m, url).1.Path?
    ensures var (n, r) := ServeUrl(web, m, url); var reply := web(|m.attempts|, url);
      && r.path == m.Target(url) && IsFile(n.files, r.path)
      && (IsFile(m.files, r.path) ==> n.files[r.path] == m.files[r.path])
      && (!IsFile(m.files, r.path) ==>
            reply.Found? && Sound(reply.resp) && n.files[r.path] == File(reply.resp.body))
  {
    if url !in m.cache && !IsFile(m.files, m.Target(url)) {
      DownloadEffect(web, m, url);
    }
  }

  /** The last step made one attempt, for this address, and published its own body. */
  ghost predicate OwnBytes(web: Web, m: Mgr, n: Mgr, url: string) {
    var reply := web(|m.attempts|, url);
    && reply.Found? && n.attempts == m.attempts + [Attempt(url, reply, true)]
    && m.Target(url) in n.files && n.files[m.Target(url)] == File(reply.resp.body)
  }

  /** An address that is served gets bytes downloaded from itself exactly when there was no file with
      its name. */
  lemma OwnBytesExactly(web: Web, m: Mgr, url: string)
    requires CacheTrue(m) && ServeUrl(web, m, url).1.Path?
    ensures OwnBytes(web, m, ServeUrl(web, m, url).0, url) <==> !IsFile(m.files, m.Target(url))
  {
    if url !in m.cache && !IsFile(m.files, m.Target(url)) {
      DownloadEffect(web, m, url);
    }
  }

  /** So two addresses with one file name share a file: the second is given the first one's bytes. */
  lemma NamesClash(web: Web, m: Mgr, a: string, b: string)
    requires CacheTrue(m) && FileName(a) == FileName(b) && ServeUrl(web, m, a).1.Path?
    ensures var n := ServeUrl(web, m, a).0; var (o, r) := ServeUrl(web, n, b);
      r == ServeUrl(web, m, a).1 && o.attempts == n.attempts && o.files == n.files
    ensures var n := ServeUrl(web, m, a).0; !OwnBytes(web, n, ServeUrl(web, n, b).0, b)
  {
    hide Collect, Touch, Move, Obtains, Sound, FileName;
    ServeKeeps(web, m, a);
    ServedContent(web, m, a);
    PathsApart(m, a, b);
  }

  /** Over whole runs: an address that is served gets its own bytes exactly when no file with its name
      was there at the start and no address with that name was downloaded before. */
  lemma OwnBytesInRun(web: Web, first: Mgr, batches: seq<seq<string>>, url: string)
    requires first.attempts == [] && CacheTrue(first)
    requires ServeUrl(web, ServeBatches(web, first, batches).0, url).1.Path?
    ensures var m := ServeBatches(web, first, batches).0;
      OwnBytes(web, m, ServeUrl(web, m, url).0, url) <==>
        && !IsFile(first.files, first.Target(url))
        && forall i | 0 <= i < |m.attempts| && m.attempts[i].published ::
             FileName(m.attempts[i].url) != FileName(url)
    ensures (!IsFile(first.files, first.Target(url))
             && forall other | other in Asked(batches) :: FileName(other) != FileName(url)) ==>
      var m := ServeBatches(web, first, batches).0; OwnBytes(web, m, ServeUrl(web, m, url).0, url)
  {
    var m := ServeBatches(web, first, batches).0;
    AllOrNothing(web, first, batches, url);
    BatchesPublish(web, first, batches, Asked(batches));
    BatchesKeep(web, first, batches);
    hide ServeBatches, Asked, ServeUrl, OwnBytes, Sound;
    OwnBytesExactly(web, m, url);
    assert m.Target(url) == first.Target(url);
    if !IsFile(m.files, m.Target(url)) {
      UnpublishedYet(first, m, url);
    }
  }

  // ---- whether a file is an address's own ----

  /** The file under this address's name is the complete body downloaded from this very address. */
  ghost predicate HoldsOwnBody(web: Web, m: Mgr, path: string, url: string, asked: set<string>) {
    exists i | 0 <= i < |m.attempts| ::
      MadeBy(web, m, i, path, FileName(url), asked) && m.attempts[i].url == url
  }

  /** No other address with this name was published. */
  ghost predicate NoOtherPublished(m: Mgr, url: string) {
    forall i | 0 <= i < |m.attempts| && m.attempts[i].published && FileName(m.attempts[i].url) == FileName(url) ::
      m.attempts[i].url == url
  }

  /** In any run, a file that is there holds the body of an address itself exactly when there was none at
      the start and no other address with the name was published. */
  lemma OwnFileExactly(web: Web, first: Mgr, batches: seq<seq<string>>, url: string)
    requires first.attempts == []
    requires var m := ServeBatches(web, first, batches).0; IsFile(m.files, m.Target(url))
    ensures var m := ServeBatches(web, first, batches).0;
      HoldsOwnBody(web, m, first.Target(url), url, Asked(batches)) <==>
        !IsFile(first.files, first.Target(url)) && NoOtherPublished(m, url)
  {
    AllOrNothing(web, first, batches, url);
    BatchesPublish(web, first, batches, Asked(batches));
    var m, path := ServeBatches(web, first, batches).0, first.Target(url);
    assert m.Target(url) == path;
    hide ServeBatches, Asked, Sound, IsFile, FileName;
    if !IsFile(first.files, path) {
      var i :| 0 <= i < |m.attempts| && MadeBy(web, m, i, path, FileName(url), Asked(batches));
    }
  }

  /** Seen from before an address is served: once it has been given a path, the file there holds its own
      body exactly when there was no such file at the start and no other address with the name has been
      published so far; it makes no difference how often the address itself was served. */
  lemma GetsOwnBodyExactly(web: Web, first: Mgr, batches: seq<seq<string>>, url: string)
    requires first.attempts == [] && CacheTrue(first)
    requires ServeUrl(web, ServeBatches(web, first, batches).0, url).1.Path?
    ensures var m := ServeBatches(web, first, batches).0; var n := ServeUrl(web, m, url).0;
      HoldsOwnBody(web, n, first.Target(url), url, Asked(batches + [[url]])) <==>
        !IsFile(first.files, first.Target(url)) && NoOtherPublished(m, url)
  {
    var m := ServeBatches(web, first, batches).0;
    var n, more := ServeUrl(web, m, url).0, batches + [[url]];
    BatchesKeep(web, first, batches);
    BatchesPublish(web, first, batches, Asked(batches));
    OneMoreServed(web, first, batches, url);
    ServedContent(web, m, url);
    hide ServeBatches, Asked, Sound, FileName;
    OwnFileExactly(web, first, more, url);
    OwnBytesExactly(web, m, url);
    assert m.Target(url) == first.Target(url) == n.Target(url);
    if IsFile(m.files, m.Target(url)) {
      assert n.attempts == m.attempts;
    } else {
      hide ServeUrl;
      UnpublishedYet(first, m, url);
    }
  }

  lemma OneMoreServed(web: Web, first: Mgr, batches: seq<seq<string>>, url: string)
    ensures ServeBatches(web, first, batches + [[url]]).0
      == ServeUrl(web, ServeBatches(web, first, batches).0, url).0
  {
    hide ServeUrl;
    assert (batches + [[url]])[..|batches|] == batches;
    var m := ServeBatches(web, first, batches).0;
    assert [url][..0] == [];
    assert ServeAll(web, m, [url]).0 == ServeUrl(web, m, url).0;
  }
}
