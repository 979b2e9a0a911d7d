/** What the asset manager does to the rest of the disk: temporary files, directories, and nothing else. */
module Leftovers {
  import opened Frames
  import opened Generator
  import opened FileSystem
  import opened AssetMgr
  import opened Publication

  /** Two disks agree at a path. */
  predicate SameAt(a: Files, b: Files, path: string) {
    (path in a <==> path in b) && (path in a ==> a[path] == b[path])
  }

  /** Writing the temporary file and moving it, at one path of the disk. */
  lemma WriteThenMove(fs: Files, accepts: Accepts, temp: string, target: string, content: seq<Byte>, done: bool,
                      p: string)
    requires temp != target && Usable(FileName(temp))
    ensures var files := fs[temp := File(content)];
      var (n, ok) := if done then Move(files, accepts, temp, target) else (files, false);
      && (p != temp && p != target ==> SameAt(n, fs, p))
      && (ok ==> temp !in n && target in n && n[target] == File(content))
      && (!ok ==> temp in n && n[temp] == File(content) && SameAt(n, fs, target))
  {
    hide FileName, Takes;
  }

  lemma TouchedAt(fs: Files, accepts: Accepts, temp: string, p: string)
    ensures var (touched, ok) := Touch(fs, accepts, temp);
      && (p != temp ==> SameAt(touched, MakeDirs(fs, Parent(temp)).0, p))
      && (!ok ==> touched == MakeDirs(fs, Parent(temp)).0)
      && (ok ==> Usable(FileName(temp)))
  {
    hide MakeDirs, FileName, Parent;
  }

  lemma MadeAt(fs: Files, path: string, p: string)
    ensures var made := MakeDirs(fs, path).0;
      && (p in fs ==> p in made && made[p] == fs[p])
      && (p in made && p !in fs ==> made[p] == Directory && Above(p, path))
  {
    MakeDirsExact(fs, path);
    hide MakeDirs, Above, Nearest;
  }

  /** What an attempt does at one path: once published, its temporary file is gone, having become the asset;
      after a failure it holds a prefix of the body and the asset's path is as it was; and beside the
      directories above the temporary file no other path is added, removed or changed. */
  lemma DownloadDisk(web: Web, m: Mgr, url: string, p: string)
    ensures var (n, r) := Download(web, m, url); var reply := web(|m.attempts|, url);
      var made, temp, target := MakeDirs(m.files, m.TempDir()).0, m.Temp(url), m.Target(url);
      && n.dir == m.dir
      && (p != temp && p != target ==> SameAt(n.files, made, p))
      && (r == Threw ==> n.files == made)
      && (r.Path? ==> temp !in n.files && target in n.files && n.files[target].File?)
      && (r.NoPath? ==> temp in n.files && n.files[temp].File? && SameAt(n.files, made, target))
      && (r.NoPath? ==> n.files[temp].content <= if reply.Found? then reply.resp.body else [])
  {
    Paths(m, url);
    PathsApart(m, url, url);
    hide Touch, Move, Collect, FileName, Parent, MakeDirs;
    TouchedAt(m.files, m.accepts, m.Temp(url), p);
    TouchedAt(m.files, m.accepts, m.Temp(url), m.Target(url));
    TouchedPaths(m, url, url);
    var (touched, ok) := Touch(m.files, m.accepts, m.Temp(url));
    if ok {
      var content := BodyWritten(web, m, url);
      WriteThenMove(touched, m.accepts, m.Temp(url), m.Target(url), content.0, content.1, p);
    }
  }

  lemma BodyWritten(web: Web, m: Mgr, url: string) returns (content: (seq<Byte>, bool))
    ensures var reply := web(|m.attempts|, url);
      && content == (if reply.Found? then Collect(Begin(reply.resp)) else ([], false))
      && content.0 <= if reply.Found? then reply.resp.body else []
  {
    var reply := web(|m.attempts|, url);
    if reply.Found? {
      CollectExact(Begin(reply.resp));
      content := Collect(Begin(reply.resp));
    } else {
      content := ([], false);
    }
  }

  /** The paths that serving an address may change. */
  predicate IsOwn(m: Mgr, asked: set<string>, path: string) {
    exists url :: url in asked && (path == m.Temp(url) || path == m.Target(url))
  }

  /** All other paths are as they were, save for directories above the temporary files. */
  ghost predicate OthersKept(first: Mgr, m: Mgr, asked: set<string>) {
    && m.dir == first.dir
    && (forall p | p in first.files && !IsOwn(first, asked, p) :: p in m.files && m.files[p] == first.files[p])
    && (forall p | p in m.files && p !in first.files && !IsOwn(first, asked, p) ::
          m.files[p].Directory? && Above(p, m.TempDir()))
  }

  /** No published attempt's temporary file is left. */
  ghost predicate TempsGone(m: Mgr) {
    forall i | 0 <= i < |m.attempts| && m.attempts[i].published :: m.Temp(m.attempts[i].url) !in m.files
  }

  lemma OtherPathKept(web: Web, first: Mgr, m: Mgr, url: string, asked: set<string>, p: string)
    requires OthersKept(first, m, asked) && url in asked && !IsOwn(first, asked, p)
    ensures var n := Download(web, m, url).0;
      && n.dir == m.dir
      && (p in first.files ==> p in n.files && n.files[p] == first.files[p])
      && (p in n.files && p !in first.files ==> n.files[p].Directory? && Above(p, n.TempDir()))
  {
    assert p != m.Temp(url) && p != m.Target(url);
    hide Download, MakeDirs, Above, FileName;
    DownloadDisk(web, m, url, p);
    MadeAt(m.files, m.TempDir(), p);
  }

  lemma DownloadKeepsOthers(web: Web, first: Mgr, m: Mgr, url: string, asked: set<string>)
    requires OthersKept(first, m, asked) && url in asked
    ensures OthersKept(first, Download(web, m, url).0, asked)
  {
    var n := Download(web, m, url).0;
    hide Download, Above, IsOwn;
    assert n.dir == m.dir by { DownloadDisk(web, m, url, ""); }
    forall p | !IsOwn(first, asked, p)
      ensures p in first.files ==> p in n.files && n.files[p] == first.files[p]
      ensures p in n.files && p !in first.files ==> n.files[p].Directory? && Above(p, n.TempDir())
    {
      OtherPathKept(web, first, m, url, asked, p);
    }
  }

  lemma TempNotAbove(m: Mgr, url: string)
    ensures !Above(m.Temp(url), m.TempDir())
  {
    assert |m.Temp(url)| > |m.TempDir()|;
    if Above(m.Temp(url), m.TempDir()) {
      AboveIsShort(m.Temp(url), m.TempDir());
    }
  }

  lemma TempsDiffer(m: Mgr, a: string, b: string)
    requires FileName(a) != FileName(b)
    ensures m.Temp(a) != m.Temp(b)
  {
    assert m.Temp(a)[|m.TempDir()| + 1..] == FileName(a);
    assert m.Temp(b)[|m.TempDir()| + 1..] == FileName(b);
  }

  /** A temporary file that is not there does not come back by the download of another name. */
  lemma TempStaysGone(web: Web, m: Mgr, url: string, other: string)
    requires FileName(other) != FileName(url) && m.Temp(other) !in m.files
    ensures m.Temp(other) !in Download(web, m, url).0.files
  {
    TempsDiffer(m, other, url);
    PathsApart(m, other, url);
    TempNotAbove(m, other);
    hide Download, MakeDirs, Above, FileName;
    DownloadDisk(web, m, url, m.Temp(other));
    MadeAt(m.files, m.TempDir(), m.Temp(other));
  }

  lemma DownloadLeavesNoTemp(web: Web, first: Mgr, m: Mgr, url: string)
    requires FilesPublished(first, m) && TempsGone(m) && !IsFile(m.files, m.Target(url))
    ensures TempsGone(Download(web, m, url).0)
  {
    UnpublishedYet(first, m, url);
    DownloadEffect(web, m, url);
    hide Download, Touch, Obtains, IsFile, FileName, FilesPublished, Sound;
    var (n, r) := Download(web, m, url);
    DownloadDisk(web, m, url, "");
    forall i | 0 <= i < |n.attempts| && n.attempts[i].published ensures n.Temp(n.attempts[i].url) !in n.files {
      assert n.Temp(n.attempts[i].url) == m.Temp(n.attempts[i].url);
      if i < |m.attempts| {
        assert n.attempts[i] == m.attempts[i];
        TempStaysGone(web, m, url, m.attempts[i].url);
      }
    }
  }

  ghost predicate DiskInOrder(web: Web, first: Mgr, m: Mgr, asked: set<string>) {
    Published(web, first, m, asked) && OthersKept(first, m, asked) && TempsGone(m)
  }

  lemma ServeDisk(web: Web, first: Mgr, m: Mgr, url: string, asked: set<string>)
    requires DiskInOrder(web, first, m, asked) && url in asked
    ensures DiskInOrder(web, first, ServeUrl(web, m, url).0, asked)
  {
    ServePublishes(web, first, m, url, asked);
    PublishedFiles(web, first, m, asked);
    hide Published, FilesPublished, Download, Above, IsOwn;
    if url !in m.cache && !IsFile(m.files, m.Target(url)) {
      DownloadKeepsOthers(web, first, m, url, asked);
      DownloadLeavesNoTemp(web, first, m, url);
      hide OthersKept, TempsGone;
    }
  }

  lemma PublishedFiles(web: Web, first: Mgr, m: Mgr, asked: set<string>)
    requires Published(web, first, m, asked)
    ensures FilesPublished(first, m)
  {
  }

  lemma {:induction false} ServeAllDisk(web: Web, first: Mgr, m: Mgr, urls: seq<string>, asked: set<string>)
    requires DiskInOrder(web, first, m, asked) && forall url | url in urls :: url in asked
    ensures DiskInOrder(web, first, ServeAll(web, m, urls).0, asked)
  {
    hide DiskInOrder, ServeUrl;
    if urls == [] {
    } else {
      var front := urls[..|urls| - 1];
      ServeAllDisk(web, first, m, front, asked);
      ServeDisk(web, first, ServeAll(web, m, front).0, urls[|urls| - 1], asked);
    }
  }

  lemma {:induction false} BatchesDisk(web: Web, first: Mgr, batches: seq<seq<string>>, asked: set<string>)
    requires first.attempts == [] && forall urls, url | urls in batches && url in urls :: url in asked
    ensures DiskInOrder(web, first, ServeBatches(web, first, batches).0, asked)
  {
    if batches == [] {
      BatchesPublish(web, first, batches, asked);
    } else {
      hide DiskInOrder, ServeAll;
      var front := batches[..|batches| - 1];
      BatchesDisk(web, first, front, asked);
      ServeAllDisk(web, first, ServeBatches(web, first, front).0, batches[|batches| - 1], asked);
    }
  }

  /** After any run: a path that is no asset's and no temporary file's of an address asked for is as it was
      at the start, save for directories above the temporary files; and a published attempt's temporary
      file is not there. */
  lemma DiskAfterRun(web: Web, first: Mgr, batches: seq<seq<string>>)
    requires first.attempts == []
    ensures var m := ServeBatches(web, first, batches).0;
      && (forall p | p in first.files && !IsOwn(first, Asked(batches), p) ::
            p in m.files && m.files[p] == first.files[p])
      && (forall p | p in m.files && p !in first.files && !IsOwn(first, Asked(batches), p) ::
            m.files[p].Directory? && Above(p, first.TempDir()))
      && (forall i | 0 <= i < |m.attempts| && m.attempts[i].published ::
            first.Temp(m.attempts[i].url) !in m.files)
  {
    BatchesDisk(web, first, batches, Asked(batches));
    var m := ServeBatches(web, first, batches).0;
    hide ServeBatches, Asked, Published, Above, IsOwn;
    assert m.dir == first.dir;
    forall i | 0 <= i < |m.attempts| && m.attempts[i].published
      ensures first.Temp(m.attempts[i].url) !in m.files
    {
      assert m.Temp(m.attempts[i].url) !in m.files;
    }
  }
}
