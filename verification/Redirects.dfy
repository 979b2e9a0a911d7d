/** Opening a download: the redirect loop, and the address each redirect leads to, compared with
    reference resolution in sections 5.2 and 5.3 of RFC 3986. */
module Redirects {
  import opened Wrappers
  import opened Generator

  // ---- addresses ----

  /** Where a scan of an address stops. */
  datatype Stops = SchemeEnd | AuthorityEnd | PathEnd | Query | Fragment | Slash {
    predicate At(c: char) {
      match this
      case SchemeEnd => c == ':' || c == '/' || c == '?' || c == '#'
      case AuthorityEnd => c == '/' || c == '?' || c == '#'
      case PathEnd => c == '?' || c == '#'
      case Query => c == '?'
      case Fragment => c == '#'
      case Slash => c == '/'
    }
  }

  predicate Free(s: string, stops: Stops) { forall i | 0 <= i < |s| :: !stops.At(s[i]) }

  /** The first position at which to stop, or the length. */
  function Find(s: string, stops: Stops): (r: nat)
    ensures r <= |s|
  {
    if s == "" || stops.At(s[0]) then 0 else 1 + Find(s[1..], stops)
  }

  lemma FindStops(s: string, stops: Stops)
    ensures var r := Find(s, stops);
      (forall i | 0 <= i < r :: !stops.At(s[i])) && (r < |s| ==> stops.At(s[r]))
  {
  }

  lemma FindIs(s: string, stops: Stops, k: nat)
    requires k <= |s| && (forall i | 0 <= i < k :: !stops.At(s[i])) && (k < |s| ==> stops.At(s[k]))
    ensures Find(s, stops) == k
  {
    if k > 0 {
      FindIs(s[1..], stops, k - 1);
    }
  }

  predicate HasScheme(s: string) {
    var k := Find(s, SchemeEnd);
    0 < k < |s| && s[k] == ':'
  }

  datatype SplitUrl = SplitUrl(scheme: string, authority: string, reqPath: string)

  function CutFragment(s: string): string { s[..Find(s, Fragment)] }

  function Split(url: string): SplitUrl {
    if !HasScheme(url) then SplitUrl("", "", CutFragment(url)) else
    var k := Find(url, SchemeEnd);
    var rest := url[k + 1..];
    if "//" <= rest then
      var j := Find(rest[2..], AuthorityEnd);
      SplitUrl(url[..k], rest[2..][..j], CutFragment(rest[2..][j..]))
    else SplitUrl(url[..k], "", CutFragment(rest))
  }

  /** An address with a scheme and, after "//", an authority: the only kind a request is sent to. */
  predicate IsNetworkUrl(url: string) {
    HasScheme(url) && "//" <= url[Find(url, SchemeEnd) + 1..]
  }

  /** Where a Location header leads. */
  function Target(url: string, location: string): string {
    if "/" <= location then Split(url).scheme + "://" + Split(url).authority + location else location
  }

  function Supports(ssl: bool, url: string): bool {
    Split(url).scheme == "http" || (Split(url).scheme == "https" && ssl)
  }

  // ---- reference resolution ----

  function DropLastSegment(out: string): string
    decreases |out|
  {
    if out == "" then ""
    else if out[|out| - 1] == '/' then out[..|out| - 1]
    else DropLastSegment(out[..|out| - 1])
  }

  /** The length of the first segment, with its leading slash if it has one. */
  function SegmentLength(s: string): (k: nat)
    requires s != ""
    ensures 0 < k <= |s|
  {
    if s[0] == '/' then 1 + Find(s[1..], Slash) else Find(s, Slash)
  }

  /** Section 5.2.4 of RFC 3986, with its output buffer. */
  function RemoveDots(s: string, out: string): string
    decreases |s|
  {
    if s == "" then out
    else if "../" <= s then RemoveDots(s[3..], out)
    else if "./" <= s then RemoveDots(s[2..], out)
    else if "/./" <= s then RemoveDots(s[2..], out)
    else if s == "/." then RemoveDots("/", out)
    else if "/../" <= s then RemoveDots(s[3..], DropLastSegment(out))
    else if s == "/.." then RemoveDots("/", DropLastSegment(out))
    else if s == "." || s == ".." then out
    else RemoveDots(s[SegmentLength(s)..], out + s[..SegmentLength(s)])
  }

  /** Some segment is "." or "..". */
  predicate HasDots(s: string)
    decreases |s|
  {
    s != "" &&
    var k := SegmentLength(s);
    var name := if s[0] == '/' then s[1..k] else s[..k];
    name == "." || name == ".." || HasDots(s[k..])
  }

  /** A path followed by whatever query and fragment it has, without its dot segments. */
  function CleanPath(s: string): string {
    var k := Find(s, PathEnd);
    RemoveDots(s[..k], "") + s[k..]
  }

  function PathOf(s: string): string { s[..Find(s, PathEnd)] }

  /** Everything after "scheme:", with an authority when there is one. */
  function CleanHier(s: string): string {
    if "//" <= s then
      var j := Find(s[2..], AuthorityEnd);
      s[..2 + j] + CleanPath(s[2 + j..])
    else CleanPath(s)
  }

  /** The path of such a remainder. */
  function HierPath(s: string): string {
    if "//" <= s then PathOf(s[2 + Find(s[2..], AuthorityEnd)..]) else PathOf(s)
  }

  /** A path that does not start with a slash, merged with the base's and cleaned. */
  function MergedPath(base: SplitUrl, location: string): string {
    var k := Find(location, PathEnd);
    var q := Find(base.reqPath, Query);
    var path, query := base.reqPath[..q], base.reqPath[q..];
    if k == 0 then path + (if "?" <= location then location else query + location)
    else if path == "" then RemoveDots("/" + location[..k], "") + location[k..]
    else RemoveDots(DropLastSegment(path) + "/" + location[..k], "") + location[k..]
  }

  /** Sections 5.2.2 and 5.3 of RFC 3986, for a base with an authority. */
  function Resolve(base: SplitUrl, location: string): string {
    if HasScheme(location) then
      var k := Find(location, SchemeEnd);
      location[..k + 1] + CleanHier(location[k + 1..])
    else if "//" <= location then base.scheme + ":" + CleanHier(location)
    else if "/" <= location then base.scheme + "://" + base.authority + CleanPath(location)
    else base.scheme + "://" + base.authority + MergedPath(base, location)
  }

  lemma DropLastShortens(out: string)
    ensures |DropLastSegment(out)| <= |out|
  {
  }

  /** Some rule of the algorithm takes the start of the path as a dot segment. */
  predicate DotRule(s: string) {
    "../" <= s || "./" <= s || "/./" <= s || s == "/." || "/../" <= s || s == "/.." || s == "." || s == ".."
  }

  lemma DotRuleMeansDots(s: string)
    requires DotRule(s)
    ensures HasDots(s)
  {
    if "../" <= s {
      FindIs(s, Slash, 2);
    } else if "./" <= s {
      FindIs(s, Slash, 1);
    } else if "/./" <= s || s == "/." {
      FindIs(s[1..], Slash, 1);
    } else if "/../" <= s || s == "/.." {
      FindIs(s[1..], Slash, 2);
    } else {
      FindIs(s, Slash, |s|);
    }
  }

  /** A segment that no rule takes is not a dot segment. */
  lemma PlainSegment(s: string)
    requires s != "" && !DotRule(s)
    ensures HasDots(s) <==> HasDots(s[SegmentLength(s)..])
  {
    if s[0] == '/' {
      FindStops(s[1..], Slash);
    } else {
      FindStops(s, Slash);
    }
  }

  lemma PlainSegmentMoves(s: string, out: string)
    requires s != "" && !DotRule(s)
    ensures var k := SegmentLength(s); RemoveDots(s, out) == RemoveDots(s[k..], out + s[..k])
  {
  }

  lemma {:induction false} NoDotsKept(s: string, out: string)
    requires !HasDots(s)
    ensures RemoveDots(s, out) == out + s
    decreases |s|
  {
    if s == "" {
      assert out + s == out;
    } else {
      var k := SegmentLength(s);
      NoDotRule(s);
      PlainSegment(s);
      PlainSegmentMoves(s, out);
      hide RemoveDots, HasDots, DotRule;
      NoDotsKept(s[k..], out + s[..k]);
      assert out + s[..k] + s[k..] == out + s;
    }
  }

  lemma NoDotRule(s: string)
    requires !HasDots(s)
    ensures !DotRule(s)
  {
    if DotRule(s) {
      DotRuleMeansDots(s);
    }
  }

  /** One rule of the algorithm shortens what it has. */
  lemma {:induction false} DotRuleShortens(s: string, out: string)
    requires DotRule(s)
    ensures |RemoveDots(s, out)| < |out| + |s|
    decreases |s|, 0
  {
    DropLastShortens(out);
    if "../" <= s {
      DotsShorten(s[3..], out);
    } else if "./" <= s || "/./" <= s {
      DotsShorten(s[2..], out);
    } else if s == "/." {
      DotsShorten("/", out);
    } else if "/../" <= s {
      DotsShorten(s[3..], DropLastSegment(out));
    } else if s == "/.." {
      DotsShorten("/", DropLastSegment(out));
    }
  }

  lemma {:induction false} DotsShorten(s: string, out: string)
    ensures |RemoveDots(s, out)| <= |out| + |s|
    ensures HasDots(s) ==> |RemoveDots(s, out)| < |out| + |s|
    decreases |s|, 1
  {
    if DotRule(s) {
      DotRuleShortens(s, out);
    } else if s != "" {
      var k := SegmentLength(s);
      PlainSegment(s);
      PlainSegmentMoves(s, out);
      DotsShorten(s[k..], out + s[..k]);
    }
  }

  /** Removing dot segments gives a path back exactly when it has none; else it gives a shorter one. */
  lemma RemoveDotsExact(s: string)
    ensures RemoveDots(s, "") == s <==> !HasDots(s)
    ensures |RemoveDots(s, "")| <= |s|
  {
    DotsShorten(s, "");
    if !HasDots(s) {
      NoDotsKept(s, "");
    }
  }

  lemma CleanPathExact(s: string)
    ensures |CleanPath(s)| <= |s|
    ensures CleanPath(s) == s <==> !HasDots(PathOf(s))
  {
    var k := Find(s, PathEnd);
    RemoveDotsExact(s[..k]);
    assert s == s[..k] + s[k..];
  }

  lemma CleanHierExact(s: string)
    ensures |CleanHier(s)| <= |s|
    ensures CleanHier(s) == s <==> !HasDots(HierPath(s))
  {
    if "//" <= s {
      var j := Find(s[2..], AuthorityEnd);
      CleanPathExact(s[2 + j..]);
      assert s == s[..2 + j] + s[2 + j..];
      assert CleanHier(s)[2 + j..] == CleanPath(s[2 + j..]);
    } else {
      CleanPathExact(s);
    }
  }

  lemma SchemeIsSplit(url: string)
    requires HasScheme(url)
    ensures Split(url).scheme == url[..Find(url, SchemeEnd)]
    ensures Split(url).scheme != "" && forall i | 0 <= i < |Split(url).scheme| :: !SchemeEnd.At(Split(url).scheme[i])
  {
    FindStops(url, SchemeEnd);
  }

  /** The guard of the branches that resolve a redirect as the RFC does. */
  predicate WellPlaced(location: string) {
    if HasScheme(location) then !HasDots(HierPath(location[Find(location, SchemeEnd) + 1..]))
    else "/" <= location && !("//" <= location) && !HasDots(PathOf(location))
  }

  /** A redirect leads where reference resolution says exactly when its location is an absolute
      address, or starts with one slash only, and has no dot segment. */
  lemma TargetAgreesExactly(url: string, location: string)
    requires IsNetworkUrl(url)
    ensures Target(url, location) == Resolve(Split(url), location) <==> WellPlaced(location)
  {
    hide RemoveDots, HasDots;
    var base := Split(url);
    SchemeIsSplit(url);
    if HasScheme(location) {
      var k := Find(location, SchemeEnd);
      CleanHierExact(location[k + 1..]);
      assert location == location[..k + 1] + location[k + 1..];
      assert Resolve(base, location)[k + 1..] == CleanHier(location[k + 1..]);
    } else if "//" <= location {
      CleanHierExact(location);
      assert |Resolve(base, location)| < |Target(url, location)|;
    } else if "/" <= location {
      CleanPathExact(location);
      var front := base.scheme + "://" + base.authority;
      assert Target(url, location)[|front|..] == location;
      assert Resolve(base, location)[|front|..] == CleanPath(location);
    } else {
      var resolved := Resolve(base, location);
      assert resolved[|base.scheme|] == ':';
      assert forall i | 0 <= i < |base.scheme| :: resolved[i] == base.scheme[i];
      FindIs(resolved, SchemeEnd, |base.scheme|);
      assert HasScheme(resolved);
    }
  }

  /** A relative redirect stays on the same scheme and authority, and asks for the location given, up
      to its fragment. */
  lemma SameAuthority(url: string, location: string)
    requires IsNetworkUrl(url) && "/" <= location
    ensures var t := Split(Target(url, location));
      && t.scheme == Split(url).scheme && t.authority == Split(url).authority
      && t.reqPath == CutFragment(location)
      && ('#' !in location ==> t.reqPath == location)
  {
    SchemeIsSplit(url);
    AuthorityIsPlain(url);
    SplitJoined(Split(url).scheme, Split(url).authority, location);
    if '#' !in location {
      FindIs(location, Fragment, |location|);
    }
  }

  lemma AuthorityIsPlain(url: string)
    requires IsNetworkUrl(url)
    ensures forall i | 0 <= i < |Split(url).authority| :: !AuthorityEnd.At(Split(url).authority[i])
  {
    var rest := url[Find(url, SchemeEnd) + 1..];
    FindStops(rest[2..], AuthorityEnd);
  }

  lemma SplitJoined(scheme: string, authority: string, path: string)
    requires scheme != "" && forall i | 0 <= i < |scheme| :: !SchemeEnd.At(scheme[i])
    requires forall i | 0 <= i < |authority| :: !AuthorityEnd.At(authority[i])
    requires "/" <= path
    ensures Split(scheme + "://" + authority + path) == SplitUrl(scheme, authority, CutFragment(path))
  {
    var url, k := scheme + "://" + authority + path, |scheme|;
    assert url[k] == ':';
    assert forall i | 0 <= i < k :: url[i] == scheme[i];
    FindIs(url, SchemeEnd, k);
    var rest := url[k + 1..];
    assert rest == "//" + authority + path;
    assert rest[2..] == authority + path;
    FindIs(rest[2..], AuthorityEnd, |authority|);
    hide Find;
    assert rest[2..][|authority|..] == path;
    assert url[..k] == scheme;
  }

  /** The request path is the location up to its fragment, whatever is in that. */
  lemma FragmentIsCut(scheme: string, authority: string, path: string, fragment: string)
    requires scheme != "" && Free(scheme, SchemeEnd) && Free(authority, AuthorityEnd)
    requires "/" <= path && Free(path, Fragment)
    ensures Split(scheme + "://" + authority + path) == SplitUrl(scheme, authority, path)
    ensures Split(scheme + "://" + authority + (path + "#" + fragment)) == SplitUrl(scheme, authority, path)
  {
    hide Split;
    SplitJoined(scheme, authority, path);
    SplitJoined(scheme, authority, path + "#" + fragment);
    FindIs(path, Fragment, |path|);
    FindIs(path + "#" + fragment, Fragment, |path|);
    hide Find;
    assert (path + "#" + fragment)[..|path|] == path;
  }

  /** Http is always supported, https exactly with TLS, and nothing else ever is. */
  lemma SupportsExact(ssl: bool, scheme: string, authority: string, path: string)
    requires scheme != "" && Free(scheme, SchemeEnd) && Free(authority, AuthorityEnd) && "/" <= path
    ensures Supports(ssl, scheme + "://" + authority + path) <==> scheme == "http" || (scheme == "https" && ssl)
  {
    SplitJoined(scheme, authority, path);
  }

  // ---- what a dot segment does in the reference ----

  /** A segment "." goes. */
  lemma DotVanishes(rest: string, out: string)
    requires "/" <= rest
    ensures RemoveDots("/." + rest, out) == RemoveDots(rest, out)
  {
    var s := "/." + rest;
    assert s[2..] == rest && s[0] == '/' && s[1] == '.' && s[2] == '/';
    assert "/./" <= s;
  }

  /** The segment at the start of a path. */
  lemma FirstSegment(name: string, tail: string)
    requires Free(name, Slash) && "/" <= tail
    ensures var s := "/" + name + tail;
      SegmentLength(s) == 1 + |name| && s[..1 + |name|] == "/" + name && s[1 + |name|..] == tail
  {
    var s := "/" + name + tail;
    assert s[1..] == name + tail;
    FindIs(s[1..], Slash, |name|);
    hide Find;
  }

  lemma DotDotDrops(rest: string, out: string)
    requires "/" <= rest
    ensures RemoveDots("/.." + rest, out) == RemoveDots(rest, DropLastSegment(out))
  {
    var s := "/.." + rest;
    assert s[3..] == rest && s[0] == '/' && s[1] == '.' && s[2] == '.' && s[3] == '/';
    assert "/../" <= s;
  }

  /** A segment ".." goes, with the segment before it. */
  lemma DotDotCancels(name: string, rest: string, out: string)
    requires Free(name, Slash) && name != "." && name != ".." && "/" <= rest
    ensures RemoveDots("/" + name + ("/.." + rest), out) == RemoveDots(rest, out)
  {
    var tail := "/.." + rest;
    FirstSegment(name, tail);
    NotDotted(name, tail);
    PlainSegmentMoves("/" + name + tail, out);
    hide RemoveDots, DotRule, SegmentLength;
    DotDotDrops(rest, out + ("/" + name));
    LastSegment(out, name);
  }

  lemma NotDotted(name: string, tail: string)
    requires Free(name, Slash) && name != "." && name != ".." && "/" <= tail
    ensures !DotRule("/" + name + tail)
  {
    var s := "/" + name + tail;
    assert s[1 + |name|] == '/' && forall i | 0 <= i < |name| :: s[1 + i] == name[i];
    assert |name| == 1 ==> name == [name[0]];
    assert |name| == 2 ==> name == [name[0], name[1]];
    assert |name| > 1 ==> s[2] == name[1];
    assert |name| > 2 ==> s[3] == name[2];
    assert s[0] == '/' && s != "." && s != "..";
    assert !("/./" <= s) && s != "/." by {
      assert s[1] == '.' && s[2] == '/' ==> |name| == 1;
    }
    assert !("/../" <= s) && s != "/.." by {
      assert s[1] == '.' && s[2] == '.' && s[3] == '/' ==> |name| == 2;
    }
  }

  lemma {:induction false} LastSegment(out: string, name: string)
    requires Free(name, Slash)
    ensures DropLastSegment(out + ("/" + name)) == out
  {
    var s := out + ("/" + name);
    if name == "" {
      assert s[|s| - 1] == '/' && s[..|s| - 1] == out;
    } else {
      assert s[|s| - 1] == name[|name| - 1];
      assert s[..|s| - 1] == out + ("/" + name[..|name| - 1]);
      LastSegment(out, name[..|name| - 1]);
    }
  }

  // ---- the redirect loop ----

  /** What a request comes to. Any reply with a Location header is a redirect, whatever its status. */
  datatype Reply =
    | Unreachable
    | Redirect(location: string)
    | Status(code: nat)
    | Found(resp: Response)

  /** The network during one download: the reply to the i-th request of it. */
  type Net = (nat, string) -> Reply

  /** One turn of the loop: a redirect comes back with the address to ask next. */
  function Asked(net: Net, ssl: bool, i: nat, url: string): Reply {
    if !Supports(ssl, url) then Unreachable else
    match net(i, url)
    case Redirect(location) => Redirect(Target(url, location))
    case Status(code) => Status(code)
    case Found(resp) => Found(resp)
    case Unreachable => Unreachable
  }

  ghost predicate Asks(ask: Net, net: Net, ssl: bool) {
    forall i, url {:trigger Asked(net, ssl, i, url)} :: ask(i, url) == Asked(net, ssl, i, url)
  }

  /** From request i on, exactly `hops` redirects come before a reply that is none. */
  ghost predicate Settles(ask: Net, i: nat, url: string, hops: nat)
    decreases hops
  {
    match ask(i, url)
    case Redirect(next) => hops > 0 && Settles(ask, i + 1, next, hops - 1)
    case _ => hops == 0
  }

  ghost function Visited(ask: Net, i: nat, url: string, hops: nat): (r: seq<string>)
    requires Settles(ask, i, url, hops)
    ensures |r| == hops + 1
    decreases hops
  {
    if hops == 0 then [url] else [url] + Visited(ask, i + 1, ask(i, url).location, hops - 1)
  }

  ghost function Final(ask: Net, i: nat, url: string, hops: nat): (r: Reply)
    requires Settles(ask, i, url, hops)
    ensures !r.Redirect?
    decreases hops
  {
    if hops == 0 then ask(i, url) else Final(ask, i + 1, ask(i, url).location, hops - 1)
  }

  ghost function Last(ask: Net, i: nat, url: string, hops: nat): string
    requires Settles(ask, i, url, hops)
    decreases hops
  {
    if hops == 0 then url else Last(ask, i + 1, ask(i, url).location, hops - 1)
  }

  /** Only the last address of a chain can be one that no request is written to, and then nothing is
      found there. */
  lemma {:induction false} OthersSupported(ask: Net, net: Net, ssl: bool, i: nat, url: string, hops: nat)
    requires Asks(ask, net, ssl) && Settles(ask, i, url, hops)
    ensures forall k | 0 <= k <= hops ::
      Supports(ssl, Visited(ask, i, url, hops)[k]) <==> k < hops || Supports(ssl, Last(ask, i, url, hops))
    ensures Final(ask, i, url, hops) != Unreachable ==> Supports(ssl, Last(ask, i, url, hops))
    decreases hops
  {
    assert ask(i, url) == Asked(net, ssl, i, url);
    if hops == 0 {
    } else {
      OthersSupported(ask, net, ssl, i + 1, ask(i, url).location, hops - 1);
    }
  }

  // ---- the same, said of the network itself ----

  ghost predicate WrittenAs(url: string, scheme: string, authority: string, path: string) {
    Free(authority, AuthorityEnd) && "/" <= path && url == scheme + "://" + authority + path
  }

  /** An address of the web: http, or https where there is TLS. */
  ghost predicate WebUrl(ssl: bool, url: string) {
    || (exists authority, path :: WrittenAs(url, "http", authority, path))
    || (ssl && exists authority, path :: WrittenAs(url, "https", authority, path))
  }

  /** From request i on, each of these addresses but the last is answered with a redirect to the next. */
  ghost predicate ChainFrom(net: Net, ssl: bool, i: nat, urls: seq<string>)
    decreases |urls|
  {
    && urls != [] && WebUrl(ssl, urls[0])
    && match net(i, urls[0])
       case Redirect(location) =>
         |urls| > 1 && urls[1] == Target(urls[0], location) && ChainFrom(net, ssl, i + 1, urls[1..])
       case _ => |urls| == 1
  }

  lemma WebUrlSupported(ssl: bool, url: string)
    requires WebUrl(ssl, url)
    ensures Supports(ssl, url)
  {
    if authority, path :| WrittenAs(url, "http", authority, path) {
      SupportsExact(ssl, "http", authority, path);
    } else {
      var authority, path :| WrittenAs(url, "https", authority, path);
      SupportsExact(ssl, "https", authority, path);
    }
  }

  lemma OneHop(ask: Net, i: nat, url: string, hops: nat)
    requires hops > 0 && ask(i, url).Redirect? && Settles(ask, i + 1, ask(i, url).location, hops - 1)
    ensures Settles(ask, i, url, hops)
    ensures Visited(ask, i, url, hops) == [url] + Visited(ask, i + 1, ask(i, url).location, hops - 1)
    ensures Final(ask, i, url, hops) == Final(ask, i + 1, ask(i, url).location, hops - 1)
  {
  }

  lemma LastHop(ask: Net, i: nat, url: string)
    requires !ask(i, url).Redirect?
    ensures Settles(ask, i, url, 0)
    ensures Visited(ask, i, url, 0) == [url] && Final(ask, i, url, 0) == ask(i, url)
  {
  }

  lemma {:induction false} ChainSettles(ask: Net, net: Net, ssl: bool, i: nat, urls: seq<string>)
    requires Asks(ask, net, ssl) && urls != [] && ChainFrom(net, ssl, i, urls)
    ensures Settles(ask, i, urls[0], |urls| - 1)
    ensures Visited(ask, i, urls[0], |urls| - 1) == urls
    ensures Final(ask, i, urls[0], |urls| - 1) == net(i + |urls| - 1, urls[|urls| - 1])
    decreases |urls|
  {
    hide WebUrl, Supports, Target, Visited, Final, Settles;
    WebUrlSupported(ssl, urls[0]);
    assert ask(i, urls[0]) == Asked(net, ssl, i, urls[0]);
    if |urls| == 1 {
      assert [urls[0]] == urls;
      LastHop(ask, i, urls[0]);
    } else {
      ChainSettles(ask, net, ssl, i + 1, urls[1..]);
      assert [urls[0]] + urls[1..] == urls;
      OneHop(ask, i, urls[0], |urls| - 1);
    }
  }

  lemma {:induction false} SettlesOnce(ask: Net, i: nat, url: string, a: nat, b: nat)
    requires Settles(ask, i, url, a) && Settles(ask, i, url, b)
    ensures a == b
    decreases a
  {
    if a == 0 || b == 0 {
    } else {
      SettlesOnce(ask, i + 1, ask(i, url).location, a - 1, b - 1);
    }
  }

  /** A chain of the network's is what a chain of requests visits, and ends in the same reply. */
  lemma ChainIsVisited(ask: Net, net: Net, ssl: bool, start: string, hops: nat, urls: seq<string>)
    requires Asks(ask, net, ssl) && Settles(ask, 0, start, hops)
    requires urls != [] && ChainFrom(net, ssl, 0, urls) && urls[0] == start
    ensures Visited(ask, 0, start, hops) == urls && hops == |urls| - 1
    ensures Final(ask, 0, start, hops) == net(|urls| - 1, urls[|urls| - 1])
  {
    hide *;
    ChainSettles(ask, net, ssl, 0, urls);
    SettlesOnce(ask, 0, start, hops, |urls| - 1);
  }

  method Request(net: Net, ssl: bool, i: nat, url: string, ghost ask: Net) returns (r: Reply)
    requires Asks(ask, net, ssl)
    ensures r == ask(i, url)
  {
    assert ask(i, url) == Asked(net, ssl, i, url);
    if !Supports(ssl, url) {
      return Unreachable;
    }
    r := net(i, url);
    if r.Redirect? {
      r := Redirect(Target(url, r.location));
    }
  }

  /** Where the loop is: what was visited, and what is left to visit, is the whole chain. */
  ghost predicate Following(ask: Net, start: string, hops: nat, requests: seq<string>, url: string, left: nat) {
    && Settles(ask, 0, start, hops) && Settles(ask, |requests|, url, left)
    && Visited(ask, 0, start, hops) == requests + Visited(ask, |requests|, url, left)
    && Final(ask, 0, start, hops) == Final(ask, |requests|, url, left)
  }

  lemma FollowOn(ask: Net, start: string, hops: nat, requests: seq<string>, url: string, left: nat)
    requires Following(ask, start, hops, requests, url, left)
    ensures match ask(|requests|, url)
      case Redirect(next) => left > 0 && Following(ask, start, hops, requests + [url], next, left - 1)
      case reply => Visited(ask, 0, start, hops) == requests + [url] && Final(ask, 0, start, hops) == reply
  {
    if left > 0 {
      var next := ask(|requests|, url).location;
      assert requests + ([url] + Visited(ask, |requests| + 1, next, left - 1))
        == requests + [url] + Visited(ask, |requests| + 1, next, left - 1);
    }
  }

  /** The redirect loop, to the end of a finite chain: one address tried a hop and one more. */
  method FollowRedirects(net: Net, ssl: bool, start: string, ghost ask: Net, ghost hops: nat)
    returns (last: Reply, tried: seq<string>)
    requires Asks(ask, net, ssl) && Settles(ask, 0, start, hops)
    ensures tried == Visited(ask, 0, start, hops) && last == Final(ask, 0, start, hops)
  {
    var url := start;
    tried := [];
    ghost var left := hops;
    assert Following(ask, start, hops, tried, url, left) by {
      assert [] + Visited(ask, 0, start, hops) == Visited(ask, 0, start, hops);
    }
    hide Asks, Following, Visited, Final, Settles;
    while true
      invariant Following(ask, start, hops, tried, url, left)
      decreases left
    {
      last := Request(net, ssl, |tried|, url, ask);
      FollowOn(ask, start, hops, tried, url, left);
      tried := tried + [url];
      match last
      case Redirect(next) =>
        url := next;
        left := left - 1;
      case _ => return;
    }
  }

  /** What the network says of a download from this address: along any chain of its own, these were the
      addresses and this the last reply. */
  ghost predicate NetSays(net: Net, ssl: bool, start: string, tried: seq<string>, last: Reply) {
    forall urls | ChainFrom(net, ssl, 0, urls) && urls[0] == start ::
      tried == urls && last == net(|urls| - 1, urls[|urls| - 1])
  }

  lemma ChainSays(ask: Net, net: Net, ssl: bool, start: string, hops: nat)
    requires Asks(ask, net, ssl) && Settles(ask, 0, start, hops)
    ensures NetSays(net, ssl, start, Visited(ask, 0, start, hops), Final(ask, 0, start, hops))
  {
    forall urls | ChainFrom(net, ssl, 0, urls) && urls[0] == start
      ensures Visited(ask, 0, start, hops) == urls
      ensures Final(ask, 0, start, hops) == net(|urls| - 1, urls[|urls| - 1])
    {
      ChainIsVisited(ask, net, ssl, start, hops, urls);
    }
  }

  /** Opens a download: what comes back is the last response's size and bytes, or its failure. A request is
      written to every address tried, save the last if its scheme is not supported. */
  method GetSync(net: Net, ssl: bool, start: string, ghost ask: Net, ghost hops: nat)
    returns (r: Result<SyncGenerator, string>, tried: seq<string>, ghost last: Reply)
    requires Asks(ask, net, ssl) && Settles(ask, 0, start, hops)
    ensures tried == Visited(ask, 0, start, hops) && |tried| == hops + 1 && last == Final(ask, 0, start, hops)
    ensures forall i | 0 <= i < |tried| ::
      Supports(ssl, tried[i]) <==> i < hops || Supports(ssl, Last(ask, 0, start, hops))
    ensures r.Success? ==> Supports(ssl, Last(ask, 0, start, hops))
    ensures NetSays(net, ssl, start, tried, last)
    ensures r.Success? <==> last.Found?
    ensures r.Success? ==>
      && fresh(r.value) && fresh(r.value.stream) && r.value.Valid()
      && r.value.View() == Begin(last.resp) && r.value.size == last.resp.size
  {
    OthersSupported(ask, net, ssl, 0, start, hops);
    ChainSays(ask, net, ssl, start, hops);
    hide Supports, Last, NetSays, Asks, Settles, Visited, Final;
    var reply;
    reply, tried := FollowRedirects(net, ssl, start, ask, hops);
    last := reply;
    match reply
    case Found(resp) =>
      var gen := new SyncGenerator(resp);
      r := Success(gen);
    case Status(code) => r := Failure("http response status");
    case Unreachable => r := Failure("no connection");
  }
}
