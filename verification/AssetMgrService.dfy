/** The asset manager as an object: its cache, its directories, the disk and the downloads. */
module AssetMgrService {
  import opened Wrappers
  import opened Frames
  import opened Generator
  import opened Redirects
  import opened FileSystem
  import opened AssetMgr

  class Disk {
    const accepts: Accepts
    var files: Files

    constructor (accepts: Accepts, files: Files)
      ensures this.accepts == accepts && this.files == files
    {
      this.accepts, this.files := accepts, files;
    }

    /** Creates a directory and those above it. */
    method MakeDirs(path: string) returns (ok: bool)
      modifies this
      ensures (files, ok) == FileSystem.MakeDirs(old(files), path)
      decreases |path|
    {
      if path == "" || IsDirectory(files, path) {
        return true;
      }
      if path in files {
        return false;
      }
      ok := MakeDirs(Parent(path));
      if ok {
        files := files[path := Directory];
      }
    }

    method Touch(path: string) returns (ok: bool)
      modifies this
      ensures (files, ok) == FileSystem.Touch(old(files), accepts, path)
    {
      ok := MakeDirs(Parent(path));
      if !ok || !Takes(accepts, path) || IsDirectory(files, path) {
        return false;
      }
      if path !in files {
        files := files[path := File([])];
      }
      return true;
    }

    /** Opens a file for writing from its start. */
    method Open(path: string) returns (ok: bool)
      modifies this
      ensures ok <==> IsFile(old(files), path)
      ensures files == if ok then old(files)[path := File([])] else old(files)
    {
      if !IsFile(files, path) {
        return false;
      }
      files := files[path := File([])];
      return true;
    }

    method Append(path: string, bytes: seq<Byte>)
      requires IsFile(files, path)
      modifies this
      ensures files == old(files)[path := File(old(files)[path].content + bytes)]
    {
      files := files[path := File(files[path].content + bytes)];
    }

    method Move(src: string, target: string) returns (ok: bool)
      requires IsFile(files, src)
      modifies this
      ensures (files, ok) == FileSystem.Move(old(files), accepts, src, target)
    {
      if IsDirectory(files, target) || !Takes(accepts, target) {
        return false;
      }
      files := (files - {src})[target := files[src]];
      return true;
    }
  }

  /** A chain of requests from an address is finite and comes to a reply. */
  ghost predicate ComesTo(ask: Net, url: string, reply: Reply) {
    exists hops :: Settles(ask, 0, url, hops) && Final(ask, 0, url, hops) == reply
  }

  /** What the n-th download attempt does, request by request, comes to what `web` says. */
  ghost predicate Realises(web: Web, asks: nat -> Net, nets: nat -> Net, ssl: bool) {
    && (forall n {:trigger asks(n)} :: Asks(asks(n), nets(n), ssl))
    && (forall n, url {:trigger web(n, url)} :: ComesTo(asks(n), url, web(n, url)))
  }

  lemma Chain(web: Web, asks: nat -> Net, nets: nat -> Net, ssl: bool, n: nat, url: string) returns (hops: nat)
    requires Realises(web, asks, nets, ssl)
    ensures Asks(asks(n), nets(n), ssl)
    ensures Settles(asks(n), 0, url, hops) && Final(asks(n), 0, url, hops) == web(n, url)
  {
    var reply := web(n, url);
    assert ComesTo(asks(n), url, reply);
    hops :| Settles(asks(n), 0, url, hops) && Final(asks(n), 0, url, hops) == reply;
  }

  /** What was written already, and then the rest. */
  function Glued(written: seq<Byte>, rest: (seq<Byte>, bool)): (seq<Byte>, bool) { (written + rest.0, rest.1) }

  lemma GluedNone(rest: (seq<Byte>, bool))
    ensures Glued([], rest) == rest
  {
    assert [] + rest.0 == rest.0;
  }

  lemma GluedNothing(written: seq<Byte>, ok: bool)
    ensures Glued(written, ([], ok)) == (written, ok)
  {
    assert written + [] == written;
  }

  lemma GluedBoth(written: seq<Byte>, chunk: seq<Byte>, rest: (seq<Byte>, bool))
    ensures Glued(written, Glued(chunk, rest)) == Glued(written + chunk, rest)
  {
    assert written + (chunk + rest.0) == written + chunk + rest.0;
  }

  class AssetMgrService {
    const mainAssetDir: string
    var localDirs: seq<string>
    var assetUrlToPath: map<string, string>
    const disk: Disk
    const ssl: bool
    const nets: nat -> Net
    ghost const asks: nat -> Net
    ghost const web: Web
    var attemptCount: nat
    ghost var attempts: seq<Attempt>

    ghost function View(): Mgr
      reads this, disk
    {
      Mgr(mainAssetDir, disk.accepts, assetUrlToPath, disk.files, attempts)
    }

    ghost predicate Valid()
      reads this
    {
      && localDirs == [mainAssetDir]
      && attemptCount == |attempts|
      && Realises(web, asks, nets, ssl)
    }

    constructor (home: string, disk: Disk, ssl: bool, nets: nat -> Net, ghost asks: nat -> Net, ghost web: Web)
      requires Realises(web, asks, nets, ssl) && FileSystem.MakeDirs(disk.files, home + "/.ac-assets").1
      modifies disk
      ensures Valid() && this.disk == disk && this.web == web
      ensures var dir := home + "/.ac-assets";
        View() == Mgr(dir, disk.accepts, map[], FileSystem.MakeDirs(old(disk.files), dir).0, [])
        && IsDirectory(disk.files, dir)
    {
      mainAssetDir := home + "/.ac-assets";
      this.disk, this.ssl, this.nets, this.asks, this.web := disk, ssl, nets, asks, web;
      localDirs, assetUrlToPath, attemptCount, attempts := [], map[], 0, [];
      new;
      ghost var before := disk.files;
      var made := disk.MakeDirs(mainAssetDir);
      MakeDirsAdds(before, mainAssetDir);
      localDirs := localDirs + [mainAssetDir];
    }

    method FindLocal(name: string) returns (r: Option<string>)
      requires Valid()
      ensures r == if IsFile(disk.files, mainAssetDir + "/" + name) then Some(mainAssetDir + "/" + name) else None
    {
      for i := 0 to |localDirs|
        invariant forall j | 0 <= j < i :: !IsFile(disk.files, localDirs[j] + "/" + name)
      {
        var path := localDirs[i] + "/" + name;
        if IsFile(disk.files, path) {
          return Some(path);
        }
      }
      assert localDirs[0] == mainAssetDir;
      return None;
    }

    /** Writes a generator's chunks to an open file until it is done or throws. */
    method Pump(gen: SyncGenerator, path: string) returns (ok: bool)
      requires gen.Valid() && IsFile(disk.files, path)
      modifies disk, gen, gen.stream
      ensures var (content, complete) := Collect(old(gen.View()));
        ok == complete && disk.files == old(disk.files)[path := File(old(disk.files)[path].content + content)]
    {
      var buffer := new Byte[CHUNK];
      ghost var files, before := disk.files, disk.files[path].content;
      ghost var start := gen.View();
      ghost var written: seq<Byte> := [];
      assert before + written == before;
      assert files[path] == File(before);
      GluedNone(Collect(start));
      while !gen.done
        invariant gen.Valid()
        invariant disk.files == files[path := File(before + written)]
        invariant Collect(start) == Glued(written, Collect(gen.View()))
        decreases |gen.stream.resp.body| - gen.stream.pos, !gen.done
      {
        ghost var g := gen.View();
        var r := gen.GetNextChunk(buffer);
        if r.Failure? {
          GluedNothing(written, false);
          return false;
        }
        var chunk := buffer[..r.value];
        disk.Append(path, chunk);
        assert before + written + chunk == before + (written + chunk);
        GluedBoth(written, chunk, Collect(gen.View()));
        written := written + chunk;
      }
      GluedNothing(written, true);
      return true;
    }

    /** Downloads to an open file; false when an exception was thrown on the way. */
    method Fetch(url: string, path: string) returns (ok: bool)
      requires Valid() && IsFile(disk.files, path) && disk.files[path] == File([])
      modifies disk
      ensures var reply := web(|attempts|, url);
        var content := if reply.Found? then Collect(Begin(reply.resp)) else ([], false);
        ok == content.1 && disk.files == old(disk.files)[path := File(content.0)]
    {
      var n := attemptCount;
      ghost var hops := Chain(web, asks, nets, ssl, n, url);
      var started, tried, last := GetSync(nets(n), ssl, url, asks(n), hops);
      if started.Failure? {
        assert disk.files == disk.files[path := File([])];
        return false;
      }
      ghost var content := Collect(Begin(web(n, url).resp)).0;
      assert [] + content == content;
      ok := Pump(started.value, path);
    }

    /** Publishes a complete temporary file, or records that the attempt came to nothing. */
    method Publish(url: string, dlPath: string, target: string, fetched: bool) returns (r: Served)
      requires Valid() && IsFile(disk.files, dlPath)
      modifies this`assetUrlToPath, this`attempts, this`attemptCount, disk
      ensures Valid()
      ensures var (moved, published) :=
          if fetched then FileSystem.Move(old(disk.files), disk.accepts, dlPath, target) else (old(disk.files), false);
        && disk.files == moved
        && attempts == old(attempts) + [Attempt(url, web(|old(attempts)|, url), published)]
        && assetUrlToPath == (if published then old(assetUrlToPath)[url := target] else old(assetUrlToPath))
        && r == (if published then Path(target) else NoPath)
    {
      var moved := false;
      if fetched {
        moved := disk.Move(dlPath, target);
      }
      attempts := attempts + [Attempt(url, web(|attempts|, url), moved)];
      attemptCount := attemptCount + 1;
      if !moved {
        return NoPath;
      }
      assetUrlToPath := assetUrlToPath[url := target];
      return Path(target);
    }

    method DownloadAsset(url: string) returns (r: Served)
      requires Valid()
      modifies this`assetUrlToPath, this`attempts, this`attemptCount, disk
      ensures Valid() && (View(), r) == Download(web, old(View()), url)
    {
      var name := FileName(url);
      var dlPath := mainAssetDir + "/.acord-dl" + "/" + name;
      Paths(View(), url);
      TouchedPaths(View(), url, url);
      hide FileSystem.Touch, FileSystem.Move, Collect, FileName, Realises;
      var ok := disk.Touch(dlPath);
      if !ok {
        return Threw;
      }
      ghost var touched := disk.files;
      ok := disk.Open(dlPath);
      if !ok {
        return NoPath;
      }
      var fetched := Fetch(url, dlPath);
      assert disk.files == touched[dlPath := disk.files[dlPath]];
      r := Publish(url, dlPath, localDirs[0] + "/" + name, fetched);
    }

    /** Serves one command's addresses; None when an exception ends the session. */
    method MakeAssetsAvailable(urls: seq<string>) returns (r: Option<seq<string>>)
      requires Valid()
      modifies this`assetUrlToPath, this`attempts, this`attemptCount, disk
      ensures Valid() && (View(), r) == ServeAll(web, old(View()), urls)
    {
      var paths := [];
      for i := 0 to |urls|
        invariant Valid()
        invariant (View(), Some(paths)) == ServeAll(web, old(View()), urls[..i])
      {
        var url := urls[i];
        assert urls[..i + 1][..i] == urls[..i];
        if url in assetUrlToPath {
          paths := paths + [assetUrlToPath[url]];
          continue;
        }
        var local := FindLocal(FileName(url));
        if local.Some? {
          assetUrlToPath := assetUrlToPath[url := local.value];
          paths := paths + [local.value];
          continue;
        }
        var served := DownloadAsset(url);
        match served
        case Threw =>
          DiedStays(web, old(View()), urls, i + 1);
          return None;
        case NoPath => paths := paths + [""];
        case Path(p) => paths := paths + [p];
      }
      assert urls[..|urls|] == urls;
      return Some(paths);
    }
  }

  /** Nothing is served after the address a session dies on. */
  lemma {:induction false} DiedStays(web: Web, m: Mgr, urls: seq<string>, n: nat)
    requires n <= |urls| && ServeAll(web, m, urls[..n]).1.None?
    ensures ServeAll(web, m, urls) == ServeAll(web, m, urls[..n])
    decreases |urls|
  {
    if n == |urls| {
      assert urls[..n] == urls;
    } else {
      assert urls[..|urls| - 1][..n] == urls[..n];
      DiedStays(web, m, urls[..|urls| - 1], n);
    }
  }
}
