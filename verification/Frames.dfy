/** Frames of the application, buffers of the WebSocket side, and the conversion between them.
    The text and binary encodings themselves are a parameter (`Codec`) with laws. */
module Frames {
  import opened Wrappers

  type Byte = x: int | 0 <= x < 256

  datatype Special = NaN | PlusInfinity | MinusInfinity

  /** The dynamic value a frame carries. A finite fractional number is a mantissa and an exponent. */
  datatype Dict =
    | Null
    | Bool(b: bool)
    | Num(n: int)
    | Float(mantissa: int, exponent: int)
    | NotFinite(kind: Special)
    | Str(s: string)
    | Blob(bytes: seq<Byte>)
    | Arr(items: seq<Dict>)
    | Obj(fields: seq<Field>)
  datatype Field = Field(key: string, value: Dict)

  datatype Frame = Frame(op: string, data: Dict)

  /** What `emplace` leaves in the receive slot when decoding then throws. */
  const EMPTY_FRAME := Frame("", Null)

  /** The buffer pair of the WebSocket side: a non-empty text wins over the bytes. */
  datatype Buffer = Buffer(textBuf: string, binaryBuf: seq<Byte>) {
    predicate IsText() { textBuf != "" }
  }

  /** A whole WebSocket message. */
  datatype Message = Text(text: string) | Binary(bytes: seq<Byte>)

  datatype Mode = Json | Cbor

  function ModeOf(target: string): Mode {
    if target == "/cbor" then Cbor else Json
  }

  /** The encodings of an unseen library: text and bytes to and from values. */
  datatype Codec = Codec(
    dump: Dict -> string,
    parse: string -> Option<Dict>,
    toCbor: Dict -> seq<Byte>,
    fromCbor: seq<Byte> -> Option<Dict>)

  /** What the text encoding makes of a value: a blob comes back as an object, and a number that is not
      finite as null. */
  function JsonView(d: Dict): Dict {
    match d
    case Blob(bytes) => Obj([Field("bytes", Arr(seq(|bytes|, i requires 0 <= i < |bytes| => Num(bytes[i])))),
                             Field("subtype", Null)])
    case NotFinite(_) => Null
    case Arr(items) => Arr(JsonViewItems(items))
    case Obj(fields) => Obj(JsonViewFields(fields))
    case _ => d
  }

  function JsonViewItems(items: seq<Dict>): seq<Dict> {
    if items == [] then [] else [JsonView(items[0])] + JsonViewItems(items[1..])
  }

  function JsonViewFields(fields: seq<Field>): seq<Field> {
    if fields == [] then []
    else [Field(fields[0].key, JsonView(fields[0].value))] + JsonViewFields(fields[1..])
  }

  /** The value holds no blob and no number that is not finite. */
  predicate TextSafe(d: Dict) {
    match d
    case Blob(_) => false
    case NotFinite(_) => false
    case Arr(items) => forall x | x in items :: TextSafe(x)
    case Obj(fields) => forall f | f in fields :: TextSafe(f.value)
    case _ => true
  }

  /** The laws: both encodings round trip, the text one up to `JsonView`, and text is never empty. */
  ghost predicate Lawful(c: Codec) {
    && (forall d {:trigger c.dump(d)} :: c.dump(d) != "" && c.parse(c.dump(d)) == Some(JsonView(d)))
    && (forall d {:trigger c.toCbor(d)} :: c.fromCbor(c.toCbor(d)) == Some(d))
  }

  function AcToJson(f: Frame): Dict {
    Obj([Field("data", f.data), Field("op", Str(f.op))])
  }

  function Lookup(fields: seq<Field>, key: string): Option<Dict> {
    if fields == [] then None
    else if fields[0].key == key then Some(fields[0].value)
    else Lookup(fields[1..], key)
  }

  /** Fails unless the value is an object whose `op` is a string; a missing `data` reads as null. */
  function JsonToAc(d: Dict): Option<Frame> {
    if !d.Obj? then None else
    match Lookup(d.fields, "op")
    case Some(Str(op)) =>
      var data := Lookup(d.fields, "data");
      Some(Frame(op, if data.Some? then data.value else Null))
    case _ => None
  }

  function FromAcFrame(c: Codec, mode: Mode, f: Frame): Buffer {
    match mode
    case Json => Buffer(c.dump(AcToJson(f)), [])
    case Cbor => Buffer("", c.toCbor(AcToJson(f)))
  }

  /** The message a buffer is sent as. */
  function ToMessage(b: Buffer): Message {
    if b.IsText() then Text(b.textBuf) else Binary(b.binaryBuf)
  }

  /** A message is decoded by its own kind, whatever mode the session sends in. */
  function Decode(c: Codec, m: Message): Option<Frame> {
    var d := match m
      case Text(t) => c.parse(t)
      case Binary(b) => c.fromCbor(b);
    if d.None? then None else JsonToAc(d.value)
  }

  function Encode(c: Codec, mode: Mode, f: Frame): Message {
    ToMessage(FromAcFrame(c, mode, f))
  }

  /** The frame the far end sees for a frame sent in a mode. */
  function Image(mode: Mode, f: Frame): Frame {
    match mode
    case Json => Frame(f.op, JsonView(f.data))
    case Cbor => f
  }

  function ImageAll(mode: Mode, fs: seq<Frame>): (r: seq<Frame>)
    ensures |r| == |fs| && forall i | 0 <= i < |fs| :: r[i] == Image(mode, fs[i])
  {
    seq(|fs|, i requires 0 <= i < |fs| => Image(mode, fs[i]))
  }

  // ---- the form of a frame as an object ----

  /** The first field with a key is at this position. */
  predicate FirstAt(fields: seq<Field>, key: string, k: nat) {
    k < |fields| && fields[k].key == key && forall j | 0 <= j < k :: fields[j].key != key
  }

  predicate Absent(fields: seq<Field>, key: string) {
    forall j | 0 <= j < |fields| :: fields[j].key != key
  }

  lemma {:induction false} LookupAt(fields: seq<Field>, key: string, k: nat)
    requires FirstAt(fields, key, k)
    ensures Lookup(fields, key) == Some(fields[k].value)
  {
    if k == 0 {
    } else {
      LookupAt(fields[1..], key, k - 1);
    }
  }

  lemma {:induction false} LookupAbsent(fields: seq<Field>, key: string)
    ensures Lookup(fields, key).None? <==> Absent(fields, key)
  {
    if fields == [] {
    } else {
      LookupAbsent(fields[1..], key);
      assert fields == [fields[0]] + fields[1..];
    }
  }

  lemma {:induction false} FirstExists(fields: seq<Field>, key: string) returns (k: nat)
    requires !Absent(fields, key)
    ensures FirstAt(fields, key, k)
  {
    if fields[0].key == key {
      k := 0;
    } else {
      k := FirstExists(fields[1..], key);
      k := k + 1;
    }
  }

  /** The value is an object whose first "op" is a string, the frame's; and its first "data", or null where
      there is none, is the frame's too. What order the fields are in, and which others there are, makes no
      difference. */
  ghost predicate Depicts(d: Dict, f: Frame) {
    && d.Obj?
    && (exists k: nat :: FirstAt(d.fields, "op", k) && d.fields[k].value == Str(f.op))
    && (forall k: nat | FirstAt(d.fields, "data", k) :: f.data == d.fields[k].value)
    && (Absent(d.fields, "data") ==> f.data == Null)
  }

  /** A value decodes to a frame exactly if it depicts it; so no other value decodes. */
  lemma JsonToAcExact(d: Dict, f: Frame)
    ensures JsonToAc(d) == Some(f) <==> Depicts(d, f)
  {
    if d.Obj? {
      LookupAbsent(d.fields, "op");
      LookupAbsent(d.fields, "data");
      if !Absent(d.fields, "op") {
        var k := FirstExists(d.fields, "op");
        LookupAt(d.fields, "op", k);
        forall j: nat | FirstAt(d.fields, "op", j) ensures j == k {
        }
      }
      if !Absent(d.fields, "data") {
        var k := FirstExists(d.fields, "data");
        LookupAt(d.fields, "data", k);
        forall j: nat | FirstAt(d.fields, "data", j) ensures j == k {
        }
      }
    }
  }

  /** What a frame is sent as has just its "op" and its "data". */
  lemma WireForm(f: Frame)
    ensures Depicts(AcToJson(f), f)
    ensures |AcToJson(f).fields| == 2
    ensures !Absent(AcToJson(f).fields, "op") && !Absent(AcToJson(f).fields, "data")
  {
    JsonToAcRestores(f.op, f.data);
    JsonToAcExact(AcToJson(f), f);
    var fields := AcToJson(f).fields;
    assert fields[0].key == "data" && fields[1].key == "op";
  }

  /** The value that a message holds. */
  function Parsed(c: Codec, m: Message): Option<Dict> {
    match m
    case Text(t) => c.parse(t)
    case Binary(b) => c.fromCbor(b)
  }

  lemma DecodeExact(c: Codec, m: Message, f: Frame)
    ensures Decode(c, m) == Some(f) <==> Parsed(c, m).Some? && Depicts(Parsed(c, m).value, f)
  {
    if Parsed(c, m).Some? {
      JsonToAcExact(Parsed(c, m).value, f);
    }
  }

  /** An encoded frame decodes, and to its image, in either mode and at a receiver in any mode. */
  lemma RoundTrip(c: Codec, mode: Mode, f: Frame)
    requires Lawful(c)
    ensures Decode(c, Encode(c, mode, f)) == Some(Image(mode, f))
  {
    var d := AcToJson(f);
    JsonToAcRestores(f.op, f.data);
    match mode
    case Json =>
      assert c.dump(d) != "";
      assert d.fields[1..] == [Field("op", Str(f.op))];
      assert JsonView(d) == AcToJson(Image(Json, f)) by {
        assert JsonViewFields(d.fields[1..]) == [Field("op", Str(f.op))];
      }
      JsonToAcRestores(f.op, JsonView(f.data));
    case Cbor =>
      assert c.fromCbor(c.toCbor(d)) == Some(d);
  }

  lemma JsonToAcRestores(op: string, data: Dict)
    ensures JsonToAc(AcToJson(Frame(op, data))) == Some(Frame(op, data))
  {
    var fields := AcToJson(Frame(op, data)).fields;
    assert fields[1..] == [Field("op", Str(op))];
    assert Lookup(fields[1..], "op") == Some(Str(op));
  }

  /** The text encoding gives a value back unchanged exactly when it holds no blob and only finite
      numbers. */
  lemma {:induction false} JsonExact(d: Dict)
    ensures JsonView(d) == d <==> TextSafe(d)
  {
    match d
    case Arr(items) => JsonExactItems(items);
    case Obj(fields) => JsonExactFields(fields);
    case _ =>
  }

  lemma {:induction false} JsonExactItems(items: seq<Dict>)
    ensures JsonViewItems(items) == items <==> forall x | x in items :: TextSafe(x)
  {
    if items == [] {
    } else {
      JsonExact(items[0]);
      JsonExactItems(items[1..]);
      assert items == [items[0]] + items[1..];
      assert JsonViewItems(items)[1..] == JsonViewItems(items[1..]);
    }
  }

  lemma {:induction false} JsonExactFields(fields: seq<Field>)
    ensures JsonViewFields(fields) == fields <==> forall f | f in fields :: TextSafe(f.value)
  {
    if fields == [] {
    } else {
      JsonExact(fields[0].value);
      JsonExactFields(fields[1..]);
      assert fields == [fields[0]] + fields[1..];
      assert JsonViewFields(fields)[1..] == JsonViewFields(fields[1..]);
    }
  }

  /** A frame survives a hop unchanged exactly when it travels as CBOR or carries neither. */
  lemma ImageExact(mode: Mode, f: Frame)
    ensures Image(mode, f) == f <==> mode == Cbor || TextSafe(f.data)
  {
    JsonExact(f.data);
  }
}
