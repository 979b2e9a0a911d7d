/** The bounded channel between a WebSocket session and the local side: a queue, a capacity, and at
    most one registered waiter a side. Blocking and registering the waiter is one atomic step. */
module Channels {
  /** One party of a channel: is its callback registered, and how many retries of its own has it
      been handed by callbacks that fired? */
  datatype Side = Side(waiting: bool, tasks: nat) {
    function Tokens(): nat { tasks + if waiting then 1 else 0 }

    /** Registers a callback; one it replaces is cancelled, which also runs it. */
    function Wait(): Side { Side(true, tasks + if waiting then 1 else 0) }

    function Fire(): Side { if waiting then Side(false, tasks + 1) else this }

    function Take(): Side
      requires tasks > 0
    {
      Side(waiting, tasks - 1)
    }
  }

  datatype OpResult<+T> = Done(value: T) | Blocked | Closed

  /** `drains` says whether what is queued can still be read after a close; every result here holds
      for both policies. `passed` is what has been read out so far. */
  datatype Chan<F> = Chan(capacity: nat, drains: bool, passed: seq<F>, queue: seq<F>, closed: bool,
                          reader: Side, writer: Side) {
    /** Everything ever accepted, in order. */
    function Written(): seq<F> { passed + queue }

    function Write(f: F): (Chan<F>, OpResult<()>) {
      if closed then (this, Closed)
      else if |queue| >= capacity then (this.(writer := writer.Wait()), Blocked)
      else (this.(queue := queue + [f], reader := reader.Fire()), Done(()))
    }

    function Read(): (Chan<F>, OpResult<F>) {
      if queue != [] && (drains || !closed) then
        (this.(passed := passed + [queue[0]], queue := queue[1..], writer := writer.Fire()), Done(queue[0]))
      else if closed then (this, Closed)
      else (this.(reader := reader.Wait()), Blocked)
    }

    function Close(): Chan<F> {
      this.(closed := true, reader := reader.Fire(), writer := writer.Fire())
    }

    /** A registered waiter always has something to wait for, and no side holds two tokens. */
    ghost predicate Valid() {
      && 0 < capacity && |queue| <= capacity
      && (reader.waiting ==> queue == [] && !closed)
      && (writer.waiting ==> |queue| == capacity && !closed)
      && reader.Tokens() <= 1 && writer.Tokens() <= 1
    }
  }

  function NewChan<F>(capacity: nat, drains: bool): Chan<F> {
    Chan(capacity, drains, [], [], false, Side(false, 0), Side(false, 0))
  }

  /** The channel as an object that both parties hold. */
  class BufferedChannel<F> {
    const capacity: nat
    const drains: bool
    ghost var passed: seq<F>
    var queue: seq<F>
    var closed: bool
    var reader: Side
    var writer: Side

    ghost function View(): Chan<F>
      reads this
    {
      Chan(capacity, drains, passed, queue, closed, reader, writer)
    }

    constructor (capacity: nat, drains: bool)
      ensures View() == NewChan(capacity, drains)
    {
      this.capacity, this.drains := capacity, drains;
      passed, queue, closed := [], [], false;
      reader, writer := Side(false, 0), Side(false, 0);
    }

    /** A write that blocks leaves the frame with the caller and the callback registered. */
    method Write(f: F) returns (res: OpResult<()>)
      modifies this
      ensures (View(), res) == old(View()).Write(f)
    {
      if closed {
        return Closed;
      }
      if |queue| >= capacity {
        writer := writer.Wait();
        return Blocked;
      }
      queue := queue + [f];
      reader := reader.Fire();
      return Done(());
    }

    method Read() returns (res: OpResult<F>)
      modifies this
      ensures (View(), res) == old(View()).Read()
    {
      if queue != [] && (drains || !closed) {
        var f := queue[0];
        queue := queue[1..];
        passed := passed + [f];
        writer := writer.Fire();
        return Done(f);
      }
      if closed {
        return Closed;
      }
      reader := reader.Wait();
      return Blocked;
    }

    method Close()
      modifies this
      ensures View() == old(View()).Close()
    {
      closed := true;
      reader := reader.Fire();
      writer := writer.Fire();
    }
  }
}
