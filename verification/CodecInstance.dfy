/** A small concrete codec that obeys the laws, so that what is proved of lawful codecs is not empty.
    A value is a tag and then its parts; a number is as many ones as it says and then a zero, and a
    list puts a one before each item and a zero at the end. */
module CodecInstance {
  import opened Wrappers
  import opened Frames

  type Bytes = seq<Byte>

  function PutNat(n: nat): Bytes { if n == 0 then [0] else [1] + PutNat(n - 1) }

  function PutInt(n: int): Bytes { if n < 0 then [0] + PutNat(-n) else [1] + PutNat(n) }

  function PutNats(ns: seq<nat>): Bytes {
    if ns == [] then [0] else [1] + PutNat(ns[0]) + PutNats(ns[1..])
  }

  function Codes(s: string): seq<nat> { seq(|s|, i requires 0 <= i < |s| => s[i] as nat) }

  function Put(d: Dict): Bytes {
    match d
    case Null => [0]
    case Bool(b) => [1, if b then 1 else 0]
    case Num(n) => [2] + PutInt(n)
    case Float(m, e) => [8] + PutInt(m) + PutInt(e)
    case NotFinite(kind) => [9, if kind == NaN then 0 else if kind == PlusInfinity then 1 else 2]
    case Str(s) => [4] + PutNats(Codes(s))
    case Blob(bytes) => [5] + PutNats(bytes)
    case Arr(items) => [6] + PutItems(items)
    case Obj(fields) => [7] + PutFields(fields)
  }

  function PutItems(items: seq<Dict>): Bytes {
    if items == [] then [0] else [1] + Put(items[0]) + PutItems(items[1..])
  }

  function PutFields(fields: seq<Field>): Bytes {
    if fields == [] then [0]
    else [1] + PutNats(Codes(fields[0].key)) + Put(fields[0].value) + PutFields(fields[1..])
  }

  /** A value read from the start of some bytes, and the bytes after it. */
  datatype Got<+T> = Got(value: T, rest: Bytes) | Bad

  function GetNat(bs: Bytes): (r: Got<nat>)
    ensures r.Got? ==> |r.rest| < |bs|
  {
    if bs == [] then Bad
    else if bs[0] == 0 then Got(0, bs[1..])
    else match GetNat(bs[1..]) case Bad => Bad case Got(n, rest) => Got(n + 1, rest)
  }

  function GetInt(bs: Bytes): (r: Got<int>)
    ensures r.Got? ==> |r.rest| < |bs|
  {
    if bs == [] then Bad
    else match GetNat(bs[1..]) case Bad => Bad case Got(n, rest) => Got(if bs[0] == 0 then -(n as int) else n, rest)
  }

  function GetFloat(bs: Bytes): (r: Got<Dict>)
    ensures r.Got? ==> |r.rest| < |bs|
  {
    match GetInt(bs)
    case Bad => Bad
    case Got(m, left) => match GetInt(left) case Bad => Bad case Got(e, rest) => Got(Float(m, e), rest)
  }

  function GetNats(bs: Bytes): (r: Got<seq<nat>>)
    ensures r.Got? ==> |r.rest| < |bs|
    decreases |bs|
  {
    if bs == [] then Bad
    else if bs[0] == 0 then Got([], bs[1..])
    else match GetNat(bs[1..])
      case Bad => Bad
      case Got(n, rest) =>
        match GetNats(rest) case Bad => Bad case Got(ns, left) => Got([n] + ns, left)
  }

  predicate IsCode(n: nat) { n < 0xD800 || 0xE000 <= n < 0x11_0000 }

  function ToChar(n: nat): char { if IsCode(n) then n as char else ' ' }

  function ToString(ns: seq<nat>): Option<string> {
    if forall i | 0 <= i < |ns| :: IsCode(ns[i]) then
      Some(seq(|ns|, i requires 0 <= i < |ns| => ToChar(ns[i])))
    else None
  }

  function GetString(bs: Bytes): (r: Got<string>)
    ensures r.Got? ==> |r.rest| < |bs|
  {
    match GetNats(bs)
    case Bad => Bad
    case Got(ns, rest) => if ToString(ns).Some? then Got(ToString(ns).value, rest) else Bad
  }

  function ToByte(n: nat): Byte { n % 256 }

  function ToBytes(ns: seq<nat>): (r: Bytes)
    ensures |r| == |ns| && forall i | 0 <= i < |ns| && ns[i] < 256 :: r[i] == ns[i]
  {
    seq(|ns|, i requires 0 <= i < |ns| => ToByte(ns[i]))
  }

  function GetBlob(bs: Bytes): (r: Got<Bytes>)
    ensures r.Got? ==> |r.rest| < |bs|
  {
    match GetNats(bs)
    case Bad => Bad
    case Got(ns, rest) => if forall n | n in ns :: n < 256 then Got(ToBytes(ns), rest) else Bad
  }

  function Map<T, U>(f: T -> U, g: Got<T>): (r: Got<U>)
    ensures r.Got? <==> g.Got?
    ensures r.Got? ==> r.rest == g.rest && r.value == f(g.value)
  {
    match g case Bad => Bad case Got(x, rest) => Got(f(x), rest)
  }

  function Get(bs: Bytes): (r: Got<Dict>)
    ensures r.Got? ==> |r.rest| < |bs|
    decreases |bs|
  {
    if bs == [] then Bad else
    var rest := bs[1..];
    match bs[0]
    case 0 => Got(Null, rest)
    case 1 => if rest == [] then Bad else Got(Bool(rest[0] == 1), rest[1..])
    case 2 => Map(n => Num(n), GetInt(rest))
    case 4 => Map(s => Str(s), GetString(rest))
    case 5 => Map(b => Blob(b), GetBlob(rest))
    case 6 => Map(items => Arr(items), GetItems(rest))
    case 7 => Map(fields => Obj(fields), GetFields(rest))
    case 8 => GetFloat(rest)
    case 9 =>
      if rest == [] then Bad
      else Got(NotFinite(if rest[0] == 0 then NaN else if rest[0] == 1 then PlusInfinity else MinusInfinity),
               rest[1..])
    case _ => Bad
  }

  function GetItems(bs: Bytes): (r: Got<seq<Dict>>)
    ensures r.Got? ==> |r.rest| < |bs|
    decreases |bs|
  {
    if bs == [] then Bad
    else if bs[0] == 0 then Got([], bs[1..])
    else match Get(bs[1..])
      case Bad => Bad
      case Got(d, rest) => Map(ds => [d] + ds, GetItems(rest))
  }

  function GetFields(bs: Bytes): (r: Got<seq<Field>>)
    ensures r.Got? ==> |r.rest| < |bs|
    decreases |bs|
  {
    if bs == [] then Bad
    else if bs[0] == 0 then Got([], bs[1..])
    else match GetString(bs[1..])
      case Bad => Bad
      case Got(key, left) =>
        match Get(left)
        case Bad => Bad
        case Got(d, rest) => Map(fs => [Field(key, d)] + fs, GetFields(rest))
  }

  lemma {:induction false} NatBack(n: nat, rest: Bytes)
    ensures GetNat(PutNat(n) + rest) == Got(n, rest)
  {
    if n > 0 {
      NatBack(n - 1, rest);
      assert (PutNat(n) + rest)[1..] == PutNat(n - 1) + rest;
    } else {
      assert (PutNat(n) + rest)[1..] == rest;
    }
  }

  lemma IntBack(n: int, rest: Bytes)
    ensures GetInt(PutInt(n) + rest) == Got(n, rest)
  {
    var m: nat := if n < 0 then -n else n;
    NatBack(m, rest);
    assert (PutInt(n) + rest)[1..] == PutNat(m) + rest;
  }

  lemma FloatBack(m: int, e: int, rest: Bytes)
    ensures GetFloat(PutInt(m) + (PutInt(e) + rest)) == Got(Float(m, e), rest)
  {
    IntBack(m, PutInt(e) + rest);
    IntBack(e, rest);
    hide GetInt, PutInt;
  }

  lemma {:induction false} NatsBack(ns: seq<nat>, rest: Bytes)
    ensures GetNats(PutNats(ns) + rest) == Got(ns, rest)
  {
    var bs := PutNats(ns) + rest;
    if ns == [] {
      assert bs[1..] == rest;
    } else {
      assert bs[1..] == PutNat(ns[0]) + (PutNats(ns[1..]) + rest);
      NatBack(ns[0], PutNats(ns[1..]) + rest);
      NatsBack(ns[1..], rest);
      assert [ns[0]] + ns[1..] == ns;
    }
  }

  lemma StringBack(s: string, rest: Bytes)
    ensures GetString(PutNats(Codes(s)) + rest) == Got(s, rest)
  {
    hide GetNats, PutNats;
    NatsBack(Codes(s), rest);
    assert forall i | 0 <= i < |s| :: IsCode(Codes(s)[i]) && Codes(s)[i] as char == s[i];
    assert ToString(Codes(s)).value == s;
  }

  lemma BlobBack(bytes: Bytes, rest: Bytes)
    ensures GetBlob(PutNats(bytes) + rest) == Got(bytes, rest)
  {
    hide GetNats, PutNats;
    NatsBack(bytes, rest);
    var ns: seq<nat> := bytes;
    assert forall n | n in ns :: n < 256;
    assert ToBytes(ns) == bytes;
  }

  /** What was put is got back, whatever follows it. */
  lemma {:induction false} PutGet(d: Dict, rest: Bytes)
    ensures Get(Put(d) + rest) == Got(d, rest)
  {
    hide PutNat, PutInt, PutNats, PutItems, PutFields, Codes;
    hide GetNat, GetInt, GetFloat, GetString, GetBlob, GetItems, GetFields;
    var bs := Put(d) + rest;
    match d
    case Null => assert bs[1..] == rest;
    case Bool(b) => assert bs[1..][1..] == rest;
    case Num(n) =>
      assert bs[1..] == PutInt(n) + rest;
      IntBack(n, rest);
    case Float(m, e) =>
      assert bs[1..] == PutInt(m) + (PutInt(e) + rest);
      FloatBack(m, e, rest);
    case NotFinite(_) => assert bs[1..][1..] == rest;
    case Str(s) =>
      assert bs[1..] == PutNats(Codes(s)) + rest;
      StringBack(s, rest);
    case Blob(bytes) =>
      assert bs[1..] == PutNats(bytes) + rest;
      BlobBack(bytes, rest);
    case Arr(items) =>
      assert bs[1..] == PutItems(items) + rest;
      ItemsBack(items, rest);
    case Obj(fields) =>
      assert bs[1..] == PutFields(fields) + rest;
      FieldsBack(fields, rest);
  }

  lemma {:induction false} ItemsBack(items: seq<Dict>, rest: Bytes)
    ensures GetItems(PutItems(items) + rest) == Got(items, rest)
  {
    hide Put, Get;
    var bs := PutItems(items) + rest;
    if items == [] {
      assert bs[1..] == rest;
    } else {
      assert bs[1..] == Put(items[0]) + (PutItems(items[1..]) + rest);
      PutGet(items[0], PutItems(items[1..]) + rest);
      ItemsBack(items[1..], rest);
      assert [items[0]] + items[1..] == items;
    }
  }

  lemma {:induction false} FieldsBack(fields: seq<Field>, rest: Bytes)
    ensures GetFields(PutFields(fields) + rest) == Got(fields, rest)
  {
    hide PutNats, Put, Get, GetString, Codes;
    var bs := PutFields(fields) + rest;
    if fields == [] {
      assert bs[1..] == rest;
    } else {
      var f, after := fields[0], PutFields(fields[1..]) + rest;
      assert bs[1..] == PutNats(Codes(f.key)) + (Put(f.value) + after);
      StringBack(f.key, Put(f.value) + after);
      PutGet(f.value, after);
      FieldsBack(fields[1..], rest);
      assert [f] + fields[1..] == fields && f == Field(f.key, f.value);
    }
  }

  function FromBytes(bs: Bytes): Option<Dict> {
    match Get(bs) case Bad => None case Got(d, _) => Some(d)
  }

  function ToText(bs: Bytes): string { seq(|bs|, i requires 0 <= i < |bs| => bs[i] as char) }

  function FromText(s: string): Option<Dict> {
    FromBytes(seq(|s|, i requires 0 <= i < |s| => (s[i] as int) % 256))
  }

  const PLAIN := Codec((d: Dict) => ToText(Put(JsonView(d))), (s: string) => FromText(s),
                       (d: Dict) => Put(d), (bs: seq<Byte>) => FromBytes(bs))

  /** The laws asked of the encodings can be met. */
  lemma PlainIsLawful()
    ensures Lawful(PLAIN)
  {
    forall d {:trigger PLAIN.dump(d)}
      ensures PLAIN.dump(d) != "" && PLAIN.parse(PLAIN.dump(d)) == Some(JsonView(d))
    {
      TextBack(JsonView(d));
    }
    forall d {:trigger PLAIN.toCbor(d)} ensures PLAIN.fromCbor(PLAIN.toCbor(d)) == Some(d) {
      PutGet(d, []);
      assert Put(d) + [] == Put(d);
    }
  }

  lemma TextBack(d: Dict)
    ensures ToText(Put(d)) != "" && FromText(ToText(Put(d))) == Some(d)
  {
    var s := ToText(Put(d));
    PutGet(d, []);
    assert Put(d) + [] == Put(d);
    assert seq(|s|, i requires 0 <= i < |s| => (s[i] as int) % 256) == Put(d);
  }
}
