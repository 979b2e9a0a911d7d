/** The requests and replies of a client's session, written out: what a frame must hold, field by field. */
module Protocol {
  import opened Frames

  /** The value is the list of these strings. */
  predicate IsList(d: Dict, xs: seq<string>) {
    d.Arr? && |d.items| == |xs| && forall i | 0 <= i < |xs| :: d.items[i] == Str(xs[i])
  }

  predicate AllStrings(d: Dict) {
    d.Arr? && forall i | 0 <= i < |d.items| :: d.items[i].Str?
  }

  /** A request to load the provider of this name: the first field "name" is that string. */
  ghost predicate NamesProvider(f: Frame, name: string) {
    && f.op == "load_provider" && f.data.Obj?
    && exists k: nat :: FirstAt(f.data.fields, "name", k) && f.data.fields[k].value == Str(name)
  }

  ghost predicate LoadsProvider(f: Frame) {
    exists name :: NamesProvider(f, name)
  }

  /** What a reply to a request looks like. */
  ghost predicate IsAnswer(req: Frame, f: Frame) {
    if req.op == "make_assets_available" then
      AllStrings(req.data) && f.op == "make_assets_available" && AllStrings(f.data)
    else if req.op == "load_provider" then
      if LoadsProvider(req) then f == Frame("load_provider", Null) else f.op == "error" && f.data.Str?
    else f == Frame("error", Str("Unknown op: " + req.op))
  }

  lemma NamesOnce(f: Frame, a: string, b: string)
    requires NamesProvider(f, a) && NamesProvider(f, b)
    ensures a == b
  {
    var k: nat :| FirstAt(f.data.fields, "name", k) && f.data.fields[k].value == Str(a);
    var j: nat :| FirstAt(f.data.fields, "name", j) && f.data.fields[j].value == Str(b);
    assert j == k;
  }
}
