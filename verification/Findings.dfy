/** Inputs at which the code does not do what one would expect of it; the conditions under which it does
    are proved where the code is modelled. */
module Findings {
  import opened Wrappers
  import opened Frames
  import opened Generator
  import opened Redirects
  import opened FileSystem
  import opened AssetMgr
  import opened Publication
  import opened Replies
  import opened Acord
  import opened Sessions

  /** A blob sent over a JSON connection arrives as an object. */
  lemma BlobLost()
    ensures var f := Frame("run", Blob([1, 2])); Image(Json, f) != f
    ensures Image(Json, Frame("run", Blob([1, 2]))).data
      == Obj([Field("bytes", Arr([Num(1), Num(2)])), Field("subtype", Null)])
  {
    ImageExact(Json, Frame("run", Blob([1, 2])));
    assert JsonView(Blob([1, 2])).fields[0].value.items == [Num(1), Num(2)];
  }

  // ---- two addresses with one file name ----

  /** A web where one address has one byte and every other address another. */
  function TwoHosts(n: nat, url: string): Reply {
    Found(Response(if url == "http://a/m.bin" then [1] else [2], Some(1), false, None))
  }

  function Empty(accepts: Accepts): Mgr { Mgr("d", accepts, map[], map["d" := Directory], []) }

  lemma NamesOfTheTwo()
    ensures FileName("http://a/m.bin") == "m.bin" == FileName("http://b/m.bin")
  {
    assert "http://a" + "/" + "m.bin" == "http://a/m.bin";
    assert "http://b" + "/" + "m.bin" == "http://b/m.bin";
    JoinThenSplit("http://a", "m.bin");
    JoinThenSplit("http://b", "m.bin");
  }

  lemma EmptyIsTidy(accepts: Accepts)
    ensures CacheTrue(Empty(accepts)) && Tidy(Empty(accepts))
    ensures forall url :: !IsFile(Empty(accepts).files, Empty(accepts).Target(url))
  {
    var m := Empty(accepts);
    TempDirPath(m);
    forall url ensures !IsDirectory(m.files, m.Temp(url)) && !IsFile(m.files, m.Target(url)) {
      assert |m.Temp(url)| > 1 && |m.Target(url)| > 1;
    }
  }

  lemma FirstIsServed(accepts: Accepts)
    requires forall path :: accepts(path)
    ensures var m := Empty(accepts); var (n, r) := ServeUrl(TwoHosts, m, "http://a/m.bin");
      && r == Path("d/m.bin") && "d/m.bin" in n.files && n.files["d/m.bin"] == File([1])
  {
    var m, a := Empty(accepts), "http://a/m.bin";
    NamesOfTheTwo();
    EmptyIsTidy(accepts);
    assert m.Target(a) == "d/m.bin" && "d/m.bin" != m.TempDir();
    assert !IsDirectory(m.files, m.Target(a)) by { assert |m.Target(a)| > 1; }
    Paths(m, a);
    ServeTidy(TwoHosts, m, a);
    ServedExactly(TwoHosts, m, a);
    ServedContent(TwoHosts, m, a);
    hide Tidy, CacheTrue, IsFile, IsDirectory, ServeUrl, FileName;
  }

  /** The second address is given the first one's byte. */
  lemma SecondGetsFirstBytes(accepts: Accepts)
    requires forall path :: accepts(path)
    ensures var m := Empty(accepts);
      var (n, r) := ServeUrl(TwoHosts, m, "http://a/m.bin"); var (o, q) := ServeUrl(TwoHosts, n, "http://b/m.bin");
      && r == q == Path("d/m.bin")
      && "d/m.bin" in o.files && o.files["d/m.bin"] == File([1])
      && TwoHosts(1, "http://b/m.bin").resp.body == [2]
  {
    NamesOfTheTwo();
    EmptyIsTidy(accepts);
    FirstIsServed(accepts);
    hide ServeUrl, Tidy, CacheTrue, FileName;
    NamesClash(TwoHosts, Empty(accepts), "http://a/m.bin", "http://b/m.bin");
  }

  // ---- addresses that end the session ----

  /** An address that ends in a slash has no file name, and no disk takes it. */
  lemma NoNameDies(web: Web, m: Mgr)
    requires CacheTrue(m)
    ensures ServeAll(web, m, ["http://h/"]).1.None?
  {
    var url := "http://h/";
    assert "http://h" + "/" + "" == url;
    JoinThenSplit("http://h", "");
    Paths(m, url);
    RefusedDies(web, m, url);
  }

  /** Nor has one that ends in "/." or "/..". */
  lemma DotsDie(web: Web, m: Mgr, front: string, name: string)
    requires CacheTrue(m) && (name == "." || name == "..")
    ensures ServeAll(web, m, [front + "/" + name]).1.None?
  {
    var url := front + "/" + name;
    JoinThenSplit(front, name);
    Paths(m, url);
    RefusedDies(web, m, url);
  }

  /** So does one whose query makes its name longer than the disk allows. */
  lemma LongNameDies(web: Web, accepts: Accepts, query: string)
    requires forall path :: accepts(path) <==> |FileName(path)| <= 255
    requires Plain(query) && |query| >= 250
    ensures ServeAll(web, Empty(accepts), ["http://h/m.gguf?" + query]).1.None?
  {
    var m, url, name := Empty(accepts), "http://h/m.gguf?" + query, "m.gguf?" + query;
    assert "http://h" + "/" + name == url;
    JoinThenSplit("http://h", name);
    Paths(m, url);
    assert !accepts(m.Temp(url));
    EmptyIsTidy(accepts);
    RefusedDies(web, m, url);
  }

  lemma RefusedDies(web: Web, m: Mgr, url: string)
    requires CacheTrue(m) && !IsFile(m.files, m.Target(url)) && !Takes(m.accepts, m.Temp(url))
    ensures ServeAll(web, m, [url]).1.None?
  {
    TouchAdds(m.files, m.accepts, m.Temp(url));
    ServedExactly(web, m, url);
    hide ServeUrl, Touch, FileName;
    assert [url][..0] == [];
  }

  // ---- commands whose data is no list of addresses ----

  /** What stands before the first item that is no string is served, and then the session ends. */
  lemma StringsBeforeNumber(web: Web, m: Mgr, url: string)
    ensures Commands(web, m, [Frame(OP_MGR_ASSETS, Arr([Str(url), Num(5)]))])
      == Outcome(ServeAll(web, m, [url]).0, [], [], None)
  {
    var items := [Str(url), Num(5)];
    assert items[1..] == [Num(5)];
    assert Leading(items) == [url];
    hide ServeAll;
  }

  /** Null is answered like an empty list. */
  lemma NullAnswered(web: Web, m: Mgr)
    ensures Commands(web, m, [Frame(OP_MGR_ASSETS, Null)]) == Outcome(m, [ResultFrame([])], [], None)
  {
    assert ServeAll(web, m, []) == (m, Some([]));
    assert Commands(web, m, []) == Outcome(m, [], [], None);
  }

  // ---- redirects ----

  /** http://h/a */
  const BASE := "http" + "://" + "h" + "/a"

  lemma BaseUrl()
    ensures Split(BASE) == SplitUrl("http", "h", "/a")
  {
    SplitJoined("http", "h", "/a");
    FindIs("/a", Fragment, 2);
    hide Split, Find;
    assert "/a"[..2] == "/a";
  }

  lemma OneSegment(name: string, rest: string)
    requires Plain(name) && name != "." && name != ".." && (rest == "" || rest[0] == '/')
    ensures HasDots("/" + name + rest) <==> HasDots(rest)
  {
    var s := "/" + name + rest;
    FindIs(s[1..], Slash, |name|);
    assert s[1..1 + |name|] == name && s[1 + |name|..] == rest;
  }

  lemma CleanHere()
    ensures CleanHier("//e/x") == "//e/x"
  {
    var loc := "//e/x";
    FindIs(loc[2..], AuthorityEnd, 1);
    FindIs("/x", PathEnd, 2);
    NoDotsAt("x");
    CleanHierExact(loc);
    hide Find, RemoveDots, HasDots, CleanHier;
    assert loc[2 + 1..] == "/x" && "/x"[..2] == "/x" && "/" + "x" == "/x";
  }

  /** A location that names another host stays on this one. */
  lemma OtherHostLost()
    ensures Target(BASE, "//e/x") == "http" + "://" + "h" + "//e/x"
    ensures Resolve(Split(BASE), "//e/x") == "http" + ":" + "//e/x"
  {
    BaseUrl();
    NoSchemeHere();
    CleanHere();
    ResolveRelative(SplitUrl("http", "h", "/a"), "//e/x");
    hide Split, CleanHier, Find, HasScheme, Resolve;
  }

  lemma NoDotsAt(name: string)
    requires Plain(name) && name != "." && name != ".."
    ensures !HasDots("/" + name)
  {
    OneSegment(name, "");
    assert "/" + name + "" == "/" + name;
  }

  lemma MergedHere()
    ensures MergedPath(SplitUrl("http", "h", "/a"), "x/y") == "/x/y"
  {
    var loc := "x/y";
    FindIs(loc, PathEnd, 3);
    FindIs("/a", Query, 2);
    NoDotsAt("y");
    OneSegment("x", "/y");
    NoDotsKept("/x/y", "");
    assert DropLastSegment("/a") == "" by {
      assert "/a"[..1] == "/" && "/"[..0] == "";
    }
    hide Find, RemoveDots, HasDots, DropLastSegment;
    assert "/x/y" == "/" + "x" + "/y";
    assert "" + "/" + "x/y" == "/x/y" && "/x/y" + "" == "/x/y";
    assert loc[..3] == loc && loc[3..] == "" && "/a"[..2] == "/a";
  }

  lemma NoSchemeHere()
    ensures !HasScheme("x/y") && !HasScheme("//e/x")
  {
    FindIs("x/y", SchemeEnd, 1);
    FindIs("//e/x", SchemeEnd, 0);
  }

  lemma ResolveRelative(base: SplitUrl, location: string)
    requires !HasScheme(location)
    ensures !("/" <= location) ==>
      Resolve(base, location) == base.scheme + "://" + base.authority + MergedPath(base, location)
    ensures "//" <= location ==> Resolve(base, location) == base.scheme + ":" + CleanHier(location)
  {
  }

  /** A location without a leading slash becomes the whole address. */
  lemma RelativeLost()
    ensures Target(BASE, "x/y") == "x/y"
    ensures Resolve(Split(BASE), "x/y") == "http" + "://" + "h" + "/x/y"
  {
    BaseUrl();
    NoSchemeHere();
    MergedHere();
    ResolveRelative(SplitUrl("http", "h", "/a"), "x/y");
    hide Split, MergedPath, Find, HasScheme, Resolve;
  }
}
