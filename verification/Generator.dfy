/** A download as a suspended coroutine: it is resumed once for each chunk, into a buffer that the
    caller supplies. */
module Generator {
  import opened Wrappers
  import opened Frames

  /** A response whose header has been read. `late`: when its last byte fills the room there was, the
      end of the message is still unread. `failAt`: reading byte number `failAt` fails, where the
      number after the last byte stands for the end of the message. */
  datatype Response = Response(body: seq<Byte>, size: Option<nat>, late: bool, failAt: Option<nat>) {
    /** A message whose length is announced ends with its last byte. */
    predicate Valid() { size.Some? ==> size.value == |body| && !late }
  }

  function Min(a: nat, b: nat): nat { if a < b then a else b }

  datatype ReadResult = Got(n: nat, done: bool) | Broken

  /** What one read of the body does: it returns when the room is full, the message is done, or
      there is an error. */
  function ReadBody(resp: Response, pos: nat, room: nat): ReadResult
    requires pos <= |resp.body|
  {
    var n := Min(room, |resp.body| - pos);
    if resp.failAt.Some? && resp.failAt.value < pos + n then Broken
    else if pos + n < |resp.body| then Got(n, false)
    else if n == room && resp.late then Got(n, false)
    else if resp.late && resp.failAt == Some(|resp.body|) then Broken
    else Got(n, true)
  }

  /** The generator: how much of the body has been handed out, whether the coroutine has reached its
      end, and whether it got there by an exception. */
  datatype Gen = Gen(resp: Response, pos: nat, done: bool, failed: bool) {
    predicate Valid() {
      && pos <= |resp.body|
      && (failed ==> done)
      && (done && !failed ==> pos == |resp.body|)
      && (!done && pos == |resp.body| ==> resp.late)
    }

    /** One call with a buffer of `room` bytes. */
    function Next(room: nat): (r: (Gen, Result<seq<Byte>, string>))
      requires Valid()
      ensures r.0.Valid()
    {
      if done then (this, Success([])) else
      match ReadBody(resp, pos, room)
      case Broken => (this.(done := true, failed := true), Failure("read"))
      case Got(n, end) => (this.(pos := pos + n, done := end), Success(resp.body[pos..pos + n]))
    }
  }

  function Begin(resp: Response): (g: Gen)
    ensures g.Valid()
  {
    Gen(resp, 0, resp.body == [] && !resp.late, false)
  }

  // ---- whole runs of calls ----

  /** The generator after calls with buffers of the given sizes, and what each call gave. */
  function Calls(g: Gen, rooms: seq<nat>): (r: (Gen, seq<Result<seq<Byte>, string>>))
    requires g.Valid()
    ensures r.0.Valid() && |r.1| == |rooms|
    decreases |rooms|
  {
    if rooms == [] then (g, []) else
    var (h, first) := g.Next(rooms[0]);
    var (last, rest) := Calls(h, rooms[1..]);
    (last, [first] + rest)
  }

  function Joined(rs: seq<Result<seq<Byte>, string>>): seq<Byte> {
    if rs == [] then []
    else (if rs[0].Success? then rs[0].value else []) + Joined(rs[1..])
  }

  function Failures(rs: seq<Result<seq<Byte>, string>>): nat {
    if rs == [] then 0 else Failures(rs[1..]) + if rs[0].Failure? then 1 else 0
  }

  /** For any buffers: the chunks join to what was handed out, and a failure surfaces from exactly
      one call or, if none is stored, from none. */
  lemma {:induction false} ChunksJoin(g: Gen, rooms: seq<nat>)
    requires g.Valid()
    ensures var (h, rs) := Calls(g, rooms);
      && h.resp == g.resp && g.pos <= h.pos
      && g.resp.body[g.pos..h.pos] == Joined(rs)
      && (g.failed ==> h.failed)
      && Failures(rs) == (if h.failed && !g.failed then 1 else 0)
    decreases |rooms|
  {
    if rooms == [] {
    } else {
      var (n, first) := g.Next(rooms[0]);
      ChunksJoin(n, rooms[1..]);
      var (h, rs) := Calls(g, rooms);
      assert rs[1..] == Calls(n, rooms[1..]).1;
      assert g.resp.body[g.pos..h.pos] == g.resp.body[g.pos..n.pos] + g.resp.body[n.pos..h.pos];
    }
  }

  /** A new generator, called with any buffers: what it gave is a prefix of the body, all of it once
      it is done without a failure; a failure surfaces from exactly one call. */
  lemma PrefixOfBody(resp: Response, rooms: seq<nat>)
    ensures var (g, rs) := Calls(Begin(resp), rooms);
      && Joined(rs) <= resp.body
      && (g.done && !g.failed ==> Joined(rs) == resp.body)
      && Failures(rs) == if g.failed then 1 else 0
  {
    ChunksJoin(Begin(resp), rooms);
  }

  /** A failure strikes before the end of a body whose end is not read separately. */
  lemma {:induction false} FailsShort(g: Gen, rooms: seq<nat>)
    requires g.Valid() && !g.resp.late && (g.failed ==> g.pos < |g.resp.body|)
    ensures var h := Calls(g, rooms).0; h.resp == g.resp && (h.failed ==> h.pos < |h.resp.body|)
    decreases |rooms|
  {
    if rooms == [] {
    } else {
      FailsShort(g.Next(rooms[0]).0, rooms[1..]);
    }
  }

  /** The size that a generator announces is that of what it gives: with any buffers, it has given that
      many bytes exactly when it is done without a failure, and never more. */
  lemma AnnouncedSize(resp: Response, rooms: seq<nat>)
    requires resp.Valid() && resp.size.Some?
    ensures var (g, rs) := Calls(Begin(resp), rooms);
      && g.resp.size == resp.size && |Joined(rs)| <= resp.size.value
      && (g.done && !g.failed <==> |Joined(rs)| == resp.size.value)
  {
    ChunksJoin(Begin(resp), rooms);
    FailsShort(Begin(resp), rooms);
  }

  /** Once done, nothing is resumed: every later call gives an empty chunk and changes nothing. */
  lemma {:induction false} DoneStays(g: Gen, rooms: seq<nat>)
    requires g.Valid() && g.done
    ensures Calls(g, rooms).0 == g
    ensures forall i | 0 <= i < |rooms| :: Calls(g, rooms).1[i] == Success([])
  {
    if rooms == [] {
    } else {
      DoneStays(g, rooms[1..]);
    }
  }

  /** Every chunk fits its buffer, and every one that is not the last fills it. */
  lemma {:induction false} ChunksFill(g: Gen, rooms: seq<nat>, i: nat)
    requires g.Valid() && i < |rooms|
    ensures var r := Calls(g, rooms).1[i]; r.Success? ==> |r.value| <= rooms[i]
    ensures !Calls(g, rooms[..i + 1]).0.done ==>
      var r := Calls(g, rooms).1[i]; r.Success? && |r.value| == rooms[i]
    decreases |rooms|
  {
    var (h, first) := g.Next(rooms[0]);
    var front := rooms[..i + 1];
    assert front[0] == rooms[0] && front[1..] == rooms[1..][..i];
    assert Calls(g, front).0 == Calls(h, front[1..]).0;
    assert Calls(g, rooms).1 == [first] + Calls(h, rooms[1..]).1;
    if i > 0 {
      ChunksFill(h, rooms[1..], i - 1);
      assert Calls(g, rooms).1[i] == Calls(h, rooms[1..]).1[i - 1];
    } else {
      assert Calls(h, front[1..]).0 == h;
    }
  }

  function Repeat(room: nat, n: nat): (r: seq<nat>)
    ensures |r| == n && forall i | 0 <= i < n :: r[i] == room
  {
    seq(n, _ => room)
  }

  /** How many calls with `room` bytes are left. */
  function CallsLeft(left: nat, room: nat, late: bool): nat
    requires room > 0
  {
    if late then left / room + 1 else (left + room - 1) / room
  }

  lemma DivStep(a: nat, b: nat)
    requires b > 0 && a >= b
    ensures a / b == (a - b) / b + 1
  {
    var q, r := (a - b) / b, (a - b) % b;
    assert a == (q + 1) * b + r;
    DivUnique(a, b, q + 1, r);
  }

  lemma DivUnique(a: nat, b: nat, q: nat, r: nat)
    requires b > 0 && a == q * b + r && r < b
    ensures a / b == q
  {
    var d := a / b - q;
    assert a == (a / b) * b + a % b;
    assert d * b == r - a % b;
    assert d <= 0 by {
      if d >= 1 { MulAtLeast(d, b); }
    }
    assert d >= 0 by {
      if d <= -1 { MulAtLeast(-d, b); }
    }
  }

  lemma MulAtLeast(d: int, b: int)
    requires d >= 1 && b >= 0
    ensures d * b >= b
  {
  }

  lemma CallsLeftStep(left: nat, room: nat, late: bool)
    requires room > 0 && left >= room
    ensures CallsLeft(left, room, late) == CallsLeft(left - room, room, late) + 1
  {
    if late {
      DivStep(left, room);
    } else {
      DivStep(left + room - 1, room);
    }
  }

  lemma OneCallLeft(left: nat, room: nat, late: bool)
    requires room > 0 && left <= room && (late ==> left < room) && (!late ==> left > 0)
    ensures CallsLeft(left, room, late) == 1
  {
    if late {
      DivUnique(left, room, 0, left);
    } else {
      DivUnique(left + room - 1, room, 1, left - 1);
    }
  }

  /** With a fixed buffer of `room` bytes and no failure, a generator is done after exactly
      `CallsLeft` calls and not before. */
  lemma {:induction false} ExactCalls(g: Gen, room: nat, n: nat)
    requires g.Valid() && room > 0 && g.resp.failAt.None? && !g.failed && !g.done
    ensures CallsLeft(|g.resp.body| - g.pos, room, g.resp.late) > 0
    ensures Calls(g, Repeat(room, n)).0.done <==> n >= CallsLeft(|g.resp.body| - g.pos, room, g.resp.late)
    decreases |g.resp.body| - g.pos
  {
    var left, late := |g.resp.body| - g.pos, g.resp.late;
    var h := g.Next(room).0;
    if h.done {
      OneCallLeft(left, room, late);
    } else {
      assert left >= room;
      CallsLeftStep(left, room, late);
    }
    if n > 0 {
      assert Repeat(room, n)[1..] == Repeat(room, n - 1);
      assert Calls(g, Repeat(room, n)).0 == Calls(h, Repeat(room, n - 1)).0;
      if h.done {
        DoneStays(h, Repeat(room, n - 1));
      } else {
        ExactCalls(h, room, n - 1);
      }
    } else if !h.done {
      ExactCalls(h, room, 0);
    }
  }

  /** A whole download: a body of n bytes takes ceil(n/k) calls with k bytes, or floor(n/k) + 1 when
      the end of the message is read separately; a non-late empty body takes none. */
  lemma WholeDownload(resp: Response, room: nat, n: nat)
    requires room > 0 && resp.failAt.None?
    ensures Calls(Begin(resp), Repeat(room, n)).0.done <==> n >= CallsLeft(|resp.body|, room, resp.late)
  {
    if Begin(resp).done {
      DoneStays(Begin(resp), Repeat(room, n));
      assert CallsLeft(0, room, false) == 0;
    } else {
      ExactCalls(Begin(resp), room, n);
    }
  }

  // ---- the coroutine and its handle ----

  /** The stream of one response, with its parser's position. */
  class BodyStream {
    const resp: Response
    var pos: nat
    var done: bool

    ghost predicate Valid()
      reads this
    {
      pos <= |resp.body|
    }

    /** The stream once the header is read. */
    constructor (resp: Response)
      ensures Valid() && this.resp == resp && pos == 0 && (done <==> resp.body == [] && !resp.late)
    {
      this.resp := resp;
      pos := 0;
      done := |resp.body| == 0 && !resp.late;
    }

    /** Reads into the first `room` bytes of the buffer; `left` of them stay unused. */
    method Read(buffer: array<Byte>, room: nat) returns (ok: bool, left: nat)
      requires Valid() && room <= buffer.Length
      modifies this`pos, this`done, buffer
      ensures Valid()
      ensures ReadBody(resp, old(pos), room) == Broken ==> !ok && pos == old(pos) && done == old(done)
      ensures ReadBody(resp, old(pos), room).Got? ==>
        var r := ReadBody(resp, old(pos), room);
        && ok && left == room - r.n && pos == old(pos) + r.n && done == r.done
        && buffer[..r.n] == resp.body[old(pos)..pos]
        && (forall i | r.n <= i < buffer.Length :: buffer[i] == old(buffer[i]))
    {
      var result := ReadBody(resp, pos, room);
      var n, from := Min(room, |resp.body| - pos), pos;
      if result.Broken? {
        return false, 0;
      }
      for i := 0 to n
        invariant pos == from && done == old(done)
        invariant buffer[..i] == resp.body[from..from + i]
        invariant forall j | i <= j < buffer.Length :: buffer[j] == old(buffer[j])
      {
        buffer[i] := resp.body[from + i];
        assert buffer[..i + 1] == buffer[..i] + [buffer[i]];
      }
      pos, done := pos + n, result.done;
      return true, room - n;
    }
  }

  class SyncGenerator {
    const stream: BodyStream
    var size: Option<nat>
    var chunkLength: nat
    var done: bool
    var failed: bool

    ghost function View(): Gen
      reads this, stream
    {
      Gen(stream.resp, stream.pos, done, failed)
    }

    ghost predicate Valid()
      reads this, stream
    {
      && stream.Valid() && View().Valid() && (!failed ==> stream.done == done)
      && size == stream.resp.size
    }

    /** Runs up to the first request for a chunk, or to the end of an empty body. The size is yielded
        on the way, once. */
    constructor (resp: Response)
      ensures Valid() && fresh(stream) && View() == Begin(resp) && size == resp.size
    {
      stream := new BodyStream(resp);
      size, chunkLength, failed := None, 0, false;
      done := false;
      new;
      YieldSize(resp.size);
      done := stream.done;
    }

    method YieldSize(n: Option<nat>)
      requires size.None?
      modifies this`size
      ensures size == n
    {
      assert size.None?;
      size := n;
    }

    /** From one request for a chunk to the next, or to the end. */
    method Resume(buffer: array<Byte>)
      requires Valid() && !done && chunkLength == buffer.Length
      modifies this`chunkLength, this`done, this`failed, stream, buffer
      ensures Valid() && size == old(size) && View() == old(View()).Next(buffer.Length).0
      ensures old(View()).Next(buffer.Length).1.Success? ==>
        && chunkLength <= buffer.Length
        && buffer[..chunkLength] == old(View()).Next(buffer.Length).1.value
        && (forall i | chunkLength <= i < buffer.Length :: buffer[i] == old(buffer[i]))
    {
      var ok, left := stream.Read(buffer, chunkLength);
      if !ok {
        failed, done := true, true;
        return;
      }
      chunkLength := chunkLength - left;
      done := stream.done;
    }

    /** Gives back how much of the buffer was filled; the rest of the buffer keeps its contents. */
    method GetNextChunk(buffer: array<Byte>) returns (r: Result<nat, string>)
      requires Valid()
      modifies this`chunkLength, this`done, this`failed, stream, buffer
      ensures Valid() && size == old(size) && View() == old(View()).Next(buffer.Length).0
      ensures r.Failure? <==> old(View()).Next(buffer.Length).1.Failure?
      ensures r.Success? ==>
        && r.value <= buffer.Length
        && buffer[..r.value] == old(View()).Next(buffer.Length).1.value
        && (forall i | r.value <= i < buffer.Length :: buffer[i] == old(buffer[i]))
    {
      if done {
        return Success(0);
      }
      chunkLength := buffer.Length;
      Resume(buffer);
      if failed {
        return Failure("read");
      }
      return Success(chunkLength);
    }
  }
}
