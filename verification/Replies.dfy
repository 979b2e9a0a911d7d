/** What the reply to a batch says, entry by entry, and which batches have none. */
module Replies {
  import opened Wrappers
  import opened FileSystem
  import opened AssetMgr

  /** An address is served from the file that is there, or by a download that succeeds, and else has
      no path; unless touching its temporary file fails. */
  lemma ServedExactly(web: Web, m: Mgr, url: string)
    requires CacheTrue(m)
    ensures var (n, r) := ServeUrl(web, m, url);
      && (r == Threw <==> !IsFile(m.files, m.Target(url)) && !Touch(m.files, m.accepts, m.Temp(url)).1)
      && (r != Threw ==> r == if Obtains(web, m, url) then Path(m.Target(url)) else NoPath)
      && (r != Threw ==> (IsFile(n.files, m.Target(url)) <==> Obtains(web, m, url)))
      && n.dir == m.dir
  {
    hide Touch, Collect;
    ServeKeeps(web, m, url);
    if url !in m.cache && !IsFile(m.files, m.Target(url)) {
      DownloadEffect(web, m, url);
      DownloadOnlyAdds(web, m, url, url);
      hide Download, Obtains;
    }
  }

  /** A batch's outcome after entries that were there before it. */
  function After(before: seq<string>, r: (Mgr, Option<seq<string>>)): (Mgr, Option<seq<string>>) {
    if r.1.None? then r else (r.0, Some(before + r.1.value))
  }

  lemma ExtendAfter(before: seq<string>, so: (Mgr, Option<seq<string>>), step: (Mgr, Served))
    ensures Extend(After(before, so), step) == After(before, Extend(so, step))
  {
    if so.1.Some? && step.1.Path? {
      assert before + so.1.value + [step.1.path] == before + (so.1.value + [step.1.path]);
    } else if so.1.Some? {
      assert before + so.1.value + [""] == before + (so.1.value + [""]);
    }
  }

  /** Serving one list after another is serving both as one batch. */
  lemma {:induction false} ServeConcat(web: Web, m: Mgr, a: seq<string>, b: seq<string>)
    ensures var first := ServeAll(web, m, a);
      ServeAll(web, m, a + b) ==
        if first.1.None? then first else After(first.1.value, ServeAll(web, first.0, b))
  {
    var first := ServeAll(web, m, a);
    if b == [] {
      assert a + b == a;
      if first.1.Some? {
        assert first.1.value + [] == first.1.value;
      }
    } else {
      var front, last := b[..|b| - 1], b[|b| - 1];
      ServeConcat(web, m, a, front);
      assert (a + b)[..|a + b| - 1] == a + front && (a + b)[|a + b| - 1] == last;
      if first.1.Some? {
        var so := ServeAll(web, first.0, front);
        ExtendAfter(first.1.value, so, ServeUrl(web, so.0, last));
      }
    }
  }

  /** In a batch's reply, the i-th entry is the path for the i-th address exactly if, at its turn, the
      asset was there or its download succeeded, and else it is empty; and the file is there after. */
  lemma {:induction false} Entries(web: Web, m: Mgr, urls: seq<string>, i: nat)
    requires CacheTrue(m) && ServeAll(web, m, urls).1.Some? && i < |urls|
    ensures ServeAll(web, m, urls).1.value[i] ==
      if Obtains(web, ServeAll(web, m, urls[..i]).0, urls[i]) then m.Target(urls[i]) else ""
    ensures IsFile(ServeAll(web, m, urls[..i + 1]).0.files, m.Target(urls[i])) <==>
      Obtains(web, ServeAll(web, m, urls[..i]).0, urls[i])
    ensures m.Target(urls[i]) != ""
    decreases |urls|
  {
    hide Keeps, ServeUrl, IsFile, FileName, Obtains, CacheTrue;
    var front := urls[..|urls| - 1];
    if i < |urls| - 1 {
      Entries(web, m, front, i);
      assert front[..i + 1] == urls[..i + 1] && front[..i] == urls[..i];
    } else {
      assert urls[..i + 1] == urls && urls[..i] == front;
      ServeAllKeeps(web, m, front);
      SameDir(m, ServeAll(web, m, front).0);
      ServedExactly(web, ServeAll(web, m, front).0, urls[i]);
    }
  }

  lemma SameDir(m: Mgr, n: Mgr)
    requires Keeps(m, n)
    ensures n.dir == m.dir && n.accepts == m.accepts
  {
  }

  /** A batch leaves every file that was there at any point of it. */
  lemma PrefixKeeps(web: Web, m: Mgr, urls: seq<string>, n: nat)
    requires CacheTrue(m) && n <= |urls|
    ensures Keeps(ServeAll(web, m, urls[..n]).0, ServeAll(web, m, urls).0)
  {
    hide Keeps, CacheTrue, ServeAll;
    ServeConcat(web, m, urls[..n], urls[n..]);
    assert urls[..n] + urls[n..] == urls;
    ServeAllKeeps(web, m, urls[..n]);
    ServeAllKeeps(web, ServeAll(web, m, urls[..n]).0, urls[n..]);
    KeepsSelf(ServeAll(web, m, urls).0);
  }

  lemma KeepsSelf(m: Mgr)
    ensures Keeps(m, m)
  {
  }

  lemma StillThere(m: Mgr, n: Mgr, url: string)
    requires Keeps(m, n) && IsFile(m.files, m.Target(url))
    ensures IsFile(n.files, m.Target(url))
  {
  }

  lemma BatchPathsExist(web: Web, m: Mgr, urls: seq<string>, i: nat)
    requires CacheTrue(m) && ServeAll(web, m, urls).1.Some? && i < |urls|
    ensures var (n, paths) := ServeAll(web, m, urls);
      paths.value[i] == "" || (paths.value[i] == m.Target(urls[i]) && IsFile(n.files, paths.value[i]))
  {
    hide Keeps, CacheTrue, ServeAll, IsFile, Obtains, FileName;
    Entries(web, m, urls, i);
    PrefixKeeps(web, m, urls, i + 1);
    var at := ServeAll(web, m, urls[..i + 1]).0;
    ServeAllKeeps(web, m, urls[..i + 1]);
    SameDir(m, at);
    if IsFile(at.files, at.Target(urls[i])) {
      StillThere(at, ServeAll(web, m, urls).0, urls[i]);
    }
  }

  /** A batch is served by what the batches before it made of the manager. */
  lemma {:induction false} BatchAt(web: Web, m: Mgr, batches: seq<seq<string>>, k: nat)
    requires k < |batches|
    ensures ServeBatches(web, m, batches).1[k]
      == ServeAll(web, ServeBatches(web, m, batches[..k]).0, batches[k]).1
    decreases |batches|
  {
    hide ServeAll;
    var front := batches[..|batches| - 1];
    if k < |front| {
      BatchAt(web, m, front, k);
      assert front[..k] == batches[..k];
    }
  }

  /** Every path any session was ever given still names a file, and is the one for its address. */
  lemma {:induction false} PathsGivenExist(web: Web, m: Mgr, batches: seq<seq<string>>, k: nat, i: nat)
    requires CacheTrue(m) && k < |batches| && i < |batches[k]|
    requires ServeBatches(web, m, batches).1[k].Some?
    ensures |ServeBatches(web, m, batches).1[k].value| == |batches[k]|
    ensures var (n, replies) := ServeBatches(web, m, batches);
      var p := replies[k].value[i];
      p == "" || (p == m.Target(batches[k][i]) && IsFile(n.files, p))
    decreases |batches|
  {
    hide Keeps, CacheTrue, ServeAll, IsFile, FileName;
    var front, last := batches[..|batches| - 1], batches[|batches| - 1];
    var before := ServeBatches(web, m, front).0;
    BatchesKeep(web, m, front);
    SameDir(m, before);
    assert before.Target(batches[k][i]) == m.Target(batches[k][i]);
    if k < |front| {
      PathsGivenExist(web, m, front, k, i);
      ServeAllKeeps(web, before, last);
      SameDir(before, ServeAll(web, before, last).0);
      if IsFile(before.files, before.Target(batches[k][i])) {
        StillThere(before, ServeAll(web, before, last).0, batches[k][i]);
      }
    } else {
      BatchPathsExist(web, before, last, i);
    }
  }

  /** In any run, an entry of a batch's reply is a path exactly if, at its turn, the asset was there or
      its download succeeded. */
  lemma EntriesInRun(web: Web, m: Mgr, batches: seq<seq<string>>, k: nat, i: nat)
    requires CacheTrue(m) && k < |batches| && i < |batches[k]|
    requires ServeBatches(web, m, batches).1[k].Some?
    ensures |ServeBatches(web, m, batches).1[k].value| == |batches[k]|
    ensures ServeBatches(web, m, batches).1[k].value[i] ==
      if Obtains(web, AtTurn(web, m, batches, k, i), batches[k][i]) then m.Target(batches[k][i]) else ""
    ensures m.Target(batches[k][i]) != ""
  {
    var before := ServeBatches(web, m, batches[..k]).0;
    BatchAt(web, m, batches, k);
    BatchesKeep(web, m, batches[..k]);
    SameDir(m, before);
    hide CacheTrue, Keeps, ServeAll, Obtains, ServeBatches, FileName;
    Entries(web, before, batches[k], i);
  }

  /** The manager when the i-th address of the k-th batch comes to be served. */
  function AtTurn(web: Web, m: Mgr, batches: seq<seq<string>>, k: nat, i: nat): Mgr
    requires k < |batches| && i < |batches[k]|
  {
    ServeAll(web, ServeBatches(web, m, batches[..k]).0, batches[k][..i]).0
  }

  // ---- which batches have no reply ----

  /** Nothing stands where the temporary files go. */
  ghost predicate Tidy(m: Mgr) {
    && MakeDirs(m.files, m.TempDir()).1
    && forall url :: !IsDirectory(m.files, m.Temp(url)) || !Takes(m.accepts, m.Temp(url))
  }

  lemma TempIsLong(m: Mgr, url: string)
    ensures Parent(m.Temp(url)) == m.TempDir()
    ensures |m.Temp(url)| > |m.TempDir()| > |Parent(m.TempDir())| && m.TempDir() != ""
  {
    Paths(m, url);
    TempDirPath(m);
  }

  lemma TouchTidy(m: Mgr, url: string)
    requires Tidy(m)
    ensures var (touched, ok) := Touch(m.files, m.accepts, m.Temp(url));
      && (ok <==> Takes(m.accepts, m.Temp(url)))
      && IsDirectory(touched, m.TempDir())
      && forall other :: IsDirectory(touched, m.Temp(other)) ==> IsDirectory(m.files, m.Temp(other))
  {
    var (touched, ok) := Touch(m.files, m.accepts, m.Temp(url));
    TempIsLong(m, url);
    TouchAdds(m.files, m.accepts, m.Temp(url));
    hide Touch, Parent, FileName;
    forall other | IsDirectory(touched, m.Temp(other)) ensures IsDirectory(m.files, m.Temp(other)) {
      TempIsLong(m, other);
    }
  }

  /** A download leaves directories where touching its temporary file did. */
  lemma DownloadDirectories(web: Web, m: Mgr, url: string, path: string)
    requires path != m.Target(url)
    ensures var touched := Touch(m.files, m.accepts, m.Temp(url)).0; var n := Download(web, m, url).0;
      && (IsDirectory(n.files, path) ==> IsDirectory(touched, path))
      && (IsDirectory(touched, path) && path != m.Temp(url) ==> IsDirectory(n.files, path))
  {
    hide Collect, FileName, Parent, Touch;
    Paths(m, url);
    TouchedPaths(m, url, url);
  }

  lemma DownloadTidy(web: Web, m: Mgr, url: string)
    requires Tidy(m)
    ensures Tidy(Download(web, m, url).0)
  {
    var n := Download(web, m, url).0;
    assert n.dir == m.dir && n.accepts == m.accepts;
    TouchTidy(m, url);
    TempIsLong(m, url);
    hide Touch, FileName, Download, Parent;
    forall other ensures IsDirectory(n.files, n.Temp(other)) ==> IsDirectory(m.files, m.Temp(other)) {
      PathsApart(m, other, url);
      DownloadDirectories(web, m, url, m.Temp(other));
    }
    assert IsDirectory(n.files, n.TempDir()) by {
      if m.TempDir() == m.Target(url) {
        MoveStopsAtDirectory(web, m, url);
      } else {
        DownloadDirectories(web, m, url, m.TempDir());
      }
    }
  }

  lemma MoveStopsAtDirectory(web: Web, m: Mgr, url: string)
    requires IsDirectory(Touch(m.files, m.accepts, m.Temp(url)).0, m.Target(url))
    ensures IsDirectory(Download(web, m, url).0.files, m.Target(url))
  {
    hide Collect, FileName, Parent, Touch;
    Paths(m, url);
    TouchedPaths(m, url, url);
  }

  /** A file can be had for the address as far as the disk is concerned: the asset is there, or the disk
      takes the path of its temporary file. */
  predicate Servable(m: Mgr, url: string) {
    IsFile(m.files, m.Target(url)) || Takes(m.accepts, m.Temp(url))
  }

  predicate AllServable(m: Mgr, urls: seq<string>) {
    forall i | 0 <= i < |urls| :: Servable(m, urls[i])
  }

  /** Whatever asset came to be since, the disk takes the path of its temporary file. */
  ghost predicate NewOnesTaken(m: Mgr, n: Mgr) {
    forall url | IsFile(n.files, m.Target(url)) && !IsFile(m.files, m.Target(url)) ::
      Takes(m.accepts, m.Temp(url))
  }

  /** So it makes no difference whether an address is looked at now or was looked at before. */
  lemma ServableStays(m: Mgr, n: Mgr, url: string)
    requires Keeps(m, n) && NewOnesTaken(m, n)
    ensures Servable(n, url) <==> Servable(m, url)
  {
  }

  lemma ServeTidy(web: Web, m: Mgr, url: string)
    requires Tidy(m) && CacheTrue(m)
    ensures var (n, r) := ServeUrl(web, m, url);
      Tidy(n) && NewOnesTaken(m, n) && (r == Threw <==> !Servable(m, url))
  {
    hide Touch, Collect;
    ServedExactly(web, m, url);
    TouchTidy(m, url);
    var n := ServeUrl(web, m, url).0;
    if url !in m.cache && !IsFile(m.files, m.Target(url)) {
      DownloadTidy(web, m, url);
      forall other | IsFile(n.files, m.Target(other)) && !IsFile(m.files, m.Target(other))
        ensures Takes(m.accepts, m.Temp(other))
      {
        DownloadOnlyAdds(web, m, url, other);
      }
      hide Download;
      assert NewOnesTaken(m, n);
    } else {
      assert n.files == m.files && n.dir == m.dir && n.accepts == m.accepts;
      assert forall other :: n.Temp(other) == m.Temp(other);
      assert Tidy(n);
    }
  }

  ghost predicate InOrder(m: Mgr, n: Mgr) {
    Keeps(m, n) && CacheTrue(n) && Tidy(n) && NewOnesTaken(m, n)
  }

  lemma InOrderOn(m: Mgr, n: Mgr, o: Mgr)
    requires InOrder(m, n) && InOrder(n, o)
    ensures InOrder(m, o)
  {
    hide Tidy, Takes, IsFile;
    KeepsOn(m, n, o);
    assert NewOnesTaken(m, o) by {
      forall url | IsFile(o.files, m.Target(url)) && !IsFile(m.files, m.Target(url))
        ensures Takes(m.accepts, m.Temp(url))
      {
        assert n.Target(url) == m.Target(url) && n.Temp(url) == m.Temp(url);
      }
    }
  }

  lemma ServeInOrder(web: Web, m: Mgr, url: string)
    requires Tidy(m) && CacheTrue(m)
    ensures var (n, r) := ServeUrl(web, m, url); InOrder(m, n) && (r == Threw <==> !Servable(m, url))
  {
    ServeKeeps(web, m, url);
    ServeTidy(web, m, url);
  }

  lemma AllServableSplit(m: Mgr, urls: seq<string>)
    ensures AllServable(m, urls) <==>
      urls == [] || (AllServable(m, urls[..|urls| - 1]) && Servable(m, urls[|urls| - 1]))
  {
    hide Servable;
  }

  /** A failed download never ends a session: a batch goes without a reply exactly if it has an address
      whose asset is not there and for which the disk takes no temporary file. */
  lemma {:induction false} BatchDiesExactly(web: Web, m: Mgr, urls: seq<string>)
    requires Tidy(m) && CacheTrue(m)
    ensures InOrder(m, ServeAll(web, m, urls).0)
    ensures ServeAll(web, m, urls).1.None? <==> !AllServable(m, urls)
  {
    AllServableSplit(m, urls);
    if urls == [] {
      assert InOrder(m, m);
    } else {
      var front, last := urls[..|urls| - 1], urls[|urls| - 1];
      BatchDiesExactly(web, m, front);
      var before := ServeAll(web, m, front).0;
      StartsInOrder(m, before, last);
      ServeInOrder(web, before, last);
      hide InOrder, Tidy, CacheTrue, ServeUrl, AllServable, Servable;
      InOrderOn(m, before, ServeUrl(web, before, last).0);
    }
  }

  lemma StartsInOrder(m: Mgr, n: Mgr, url: string)
    requires InOrder(m, n)
    ensures Tidy(n) && CacheTrue(n) && (Servable(n, url) <==> Servable(m, url))
  {
    ServableStays(m, n, url);
  }

  lemma AllServableStays(m: Mgr, n: Mgr, urls: seq<string>)
    requires InOrder(m, n)
    ensures AllServable(n, urls) <==> AllServable(m, urls)
  {
    hide Servable, InOrder;
    forall url ensures Servable(n, url) <==> Servable(m, url) {
      StartsInOrder(m, n, url);
    }
  }

  lemma {:induction false} BatchesInOrder(web: Web, m: Mgr, batches: seq<seq<string>>)
    requires Tidy(m) && CacheTrue(m)
    ensures InOrder(m, ServeBatches(web, m, batches).0)
  {
    if batches == [] {
      assert InOrder(m, m);
    } else {
      var front, last := batches[..|batches| - 1], batches[|batches| - 1];
      BatchesInOrder(web, m, front);
      var before := ServeBatches(web, m, front).0;
      StartsInOrder(m, before, "");
      BatchDiesExactly(web, before, last);
      hide InOrder, Tidy, CacheTrue, ServeAll, AllServable;
      InOrderOn(m, before, ServeAll(web, before, last).0);
    }
  }

  /** Over whole runs, whatever the web does: which batches end their sessions was settled by the disk at
      the start. */
  lemma DeadBatchesExactly(web: Web, m: Mgr, batches: seq<seq<string>>, k: nat)
    requires Tidy(m) && CacheTrue(m) && k < |batches|
    ensures ServeBatches(web, m, batches).1[k].None? <==> !AllServable(m, batches[k])
  {
    var before := ServeBatches(web, m, batches[..k]).0;
    BatchAt(web, m, batches, k);
    BatchesInOrder(web, m, batches[..k]);
    StartsInOrder(m, before, "");
    AllServableStays(m, before, batches[k]);
    hide InOrder, Tidy, CacheTrue, ServeAll, ServeBatches, AllServable;
    BatchDiesExactly(web, before, batches[k]);
  }
}
