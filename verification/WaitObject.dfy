/** The wait object of a session's executor: one callback slot and a queue of posted tasks. */
module WaitObject {
  import opened Wrappers

  /** A callback, by the number it was registered under. */
  type Callback = nat

  datatype Task = WakeOne | Cancel(cb: Callback)

  /** `fired` lists the callbacks invoked so far; callbacks are numbered as they are registered. */
  datatype State = State(slot: Option<Callback>, tasks: seq<Task>, fired: seq<Callback>, registered: nat)

  datatype Op = Wait | NotifyOne | RunTask

  const EMPTY := State(None, [], [], 0)

  function Apply(s: State, op: Op): State {
    match op
    case Wait =>
      s.(tasks := s.tasks + Cancels(s.slot), slot := Some(s.registered), registered := s.registered + 1)
    case NotifyOne => s.(tasks := s.tasks + [WakeOne])
    case RunTask =>
      if s.tasks == [] then s else
      var rest := s.(tasks := s.tasks[1..]);
      match s.tasks[0]
      case Cancel(cb) => rest.(fired := s.fired + [cb])
      case WakeOne => rest.(slot := None, fired := s.fired + s.slot.ToSeq())
  }

  function Cancels(slot: Option<Callback>): seq<Task> {
    if slot.Some? then [Cancel(slot.value)] else []
  }

  function Run(s: State, ops: seq<Op>): State {
    if ops == [] then s else Apply(Run(s, ops[..|ops| - 1]), ops[|ops| - 1])
  }

  function Count<T(==)>(xs: seq<T>, x: T): nat {
    if xs == [] then 0 else Count(xs[1..], x) + if xs[0] == x then 1 else 0
  }

  lemma {:induction false} CountConcat<T>(xs: seq<T>, ys: seq<T>, x: T)
    ensures Count(xs + ys, x) == Count(xs, x) + Count(ys, x)
  {
    if xs == [] {
      assert xs + ys == ys;
    } else {
      CountConcat(xs[1..], ys, x);
      assert (xs + ys)[1..] == xs[1..] + ys;
    }
  }

  /** In how many places a callback is: the slot, a queued cancellation, the fired list. */
  function Places(s: State, cb: Callback): nat {
    Count(s.slot.ToSeq(), cb) + Count(s.tasks, Cancel(cb)) + Count(s.fired, cb)
  }

  lemma Moves(s: State, op: Op, cb: Callback)
    ensures Places(Apply(s, op), cb) == Places(s, cb) + if op == Wait && cb == s.registered then 1 else 0
  {
    match op
    case Wait =>
      CountConcat(s.tasks, Cancels(s.slot), Cancel(cb));
      assert Count(Cancels(s.slot), Cancel(cb)) == Count(s.slot.ToSeq(), cb);
      assert Count([s.registered], cb) == if cb == s.registered then 1 else 0;
    case NotifyOne => CountConcat(s.tasks, [WakeOne], Cancel(cb));
    case RunTask =>
      if s.tasks != [] {
        match s.tasks[0]
        case Cancel(x) => CountConcat(s.fired, [x], cb);
        case WakeOne => CountConcat(s.fired, s.slot.ToSeq(), cb);
      }
  }

  /** Over any sequence of waits, notifications and task executions, each callback registered so far
      is in exactly one of the slot, the queue and the fired list, and there once. */
  lemma {:induction false} Conserved(ops: seq<Op>, cb: Callback)
    ensures var s := Run(EMPTY, ops); Places(s, cb) == if cb < s.registered then 1 else 0
  {
    if ops == [] {
    } else {
      Conserved(ops[..|ops| - 1], cb);
      Moves(Run(EMPTY, ops[..|ops| - 1]), ops[|ops| - 1], cb);
    }
  }

  /** No callback fires twice, and neither the slot nor the queue holds one that has fired. */
  lemma FiresAtMostOnce(ops: seq<Op>, cb: Callback)
    ensures var s := Run(EMPTY, ops);
      && Count(s.fired, cb) <= 1
      && (Count(s.fired, cb) == 1 ==> s.slot != Some(cb) && Count(s.tasks, Cancel(cb)) == 0)
  {
    Conserved(ops, cb);
  }

  /** A notification since the last wait either emptied the slot or is still queued. */
  predicate Covered(ops: seq<Op>) {
    exists i :: 0 <= i < |ops| && ops[i] == NotifyOne && forall j :: i <= j < |ops| ==> ops[j] != Wait
  }

  lemma {:induction false} NoLostNotify(ops: seq<Op>)
    requires Covered(ops)
    ensures var s := Run(EMPTY, ops); s.slot.None? || WakeOne in s.tasks
  {
    var i :| 0 <= i < |ops| && ops[i] == NotifyOne && forall j :: i <= j < |ops| ==> ops[j] != Wait;
    var last := ops[|ops| - 1];
    var s := Run(EMPTY, ops[..|ops| - 1]);
    if i == |ops| - 1 {
      assert Apply(s, last).tasks[|s.tasks|] == WakeOne;
    } else {
      var before := ops[..|ops| - 1];
      assert before[i] == NotifyOne;
      NoLostNotify(before);
      assert last != Wait;
      if last == RunTask && s.tasks != [] && s.tasks[0].Cancel? {
        assert s.tasks == [s.tasks[0]] + s.tasks[1..];
      }
    }
  }

  /** Once the queue has drained, a notification issued after the last wait leaves nothing pending:
      every callback registered has fired, once. */
  lemma DrainedNotifyFiresAll(ops: seq<Op>)
    requires Covered(ops) && Run(EMPTY, ops).tasks == []
    ensures var s := Run(EMPTY, ops);
      s.slot.None? && forall cb: Callback :: cb < s.registered ==> Count(s.fired, cb) == 1
  {
    NoLostNotify(ops);
    var s := Run(EMPTY, ops);
    forall cb: Callback | cb < s.registered ensures Count(s.fired, cb) == 1 {
      Conserved(ops, cb);
      assert Count(s.slot.ToSeq(), cb) == 0 && Count(s.tasks, Cancel(cb)) == 0;
    }
  }

  // ---- which callback fires ----

  /** The queue runs empty and nothing else happens. */
  function Drain(s: State): State
    decreases |s.tasks|
  {
    if s.tasks == [] then s else Drain(Apply(s, RunTask))
  }

  /** Draining fires every callback queued for cancellation, and the one in the slot exactly if a
      notification is queued; otherwise that one stays where it is. */
  lemma {:induction false} DrainExact(s: State)
    ensures Drain(s).tasks == [] && s.fired <= Drain(s).fired
    ensures forall cb | Cancel(cb) in s.tasks :: cb in Drain(s).fired
    ensures Drain(s).slot == if WakeOne in s.tasks then None else s.slot
    ensures WakeOne in s.tasks && s.slot.Some? ==> s.slot.value in Drain(s).fired
    ensures WakeOne !in s.tasks ==> forall cb | cb in Drain(s).fired :: cb in s.fired || Cancel(cb) in s.tasks
    decreases |s.tasks|
  {
    if s.tasks == [] {
    } else {
      var next := Apply(s, RunTask);
      DrainExact(next);
      assert s.tasks == [s.tasks[0]] + s.tasks[1..];
      match s.tasks[0]
      case Cancel(cb) => assert next.fired[|s.fired|] == cb;
      case WakeOne =>
        if s.slot.Some? {
          assert next.fired[|s.fired|] == s.slot.value;
        }
    }
  }

  /** A second wait cancels the callback that was waiting, and none other: once the queue has drained, that
      one has fired, and the new one is waiting unless a notification had been queued before. */
  lemma SecondWaitCancelsFirst(s: State, first: Callback)
    requires s.slot == Some(first)
    ensures var d := Drain(Apply(s, Wait));
      && first in d.fired
      && d.slot == (if WakeOne in s.tasks then None else Some(s.registered))
      && (WakeOne !in s.tasks ==>
            forall cb | cb in d.fired :: cb in s.fired || Cancel(cb) in s.tasks || cb == first)
  {
    var next := Apply(s, Wait);
    assert next.tasks == s.tasks + [Cancel(first)];
    assert next.tasks[|s.tasks|] == Cancel(first);
    DrainExact(next);
  }

  /** The object itself, with the tasks its executor holds. */
  class WsSessionHandlerWobj {
    var slot: Option<Callback>
    var tasks: seq<Task>
    var fired: seq<Callback>
    ghost var registered: nat

    ghost function View(): State
      reads this
    {
      State(slot, tasks, fired, registered)
    }

    constructor ()
      ensures View() == EMPTY
    {
      slot, tasks, fired, registered := None, [], [], 0;
    }

    method NotifyOne()
      modifies this
      ensures View() == Apply(old(View()), Op.NotifyOne)
    {
      tasks := tasks + [WakeOne];
    }

    /** A callback already in the slot is cancelled by a task of its own. */
    method Wait(cb: Callback)
      requires cb == registered
      modifies this
      ensures View() == Apply(old(View()), Op.Wait)
    {
      if slot.Some? {
        tasks := tasks + [Cancel(slot.value)];
      }
      slot := Some(cb);
      registered := registered + 1;
    }

    method RunTask()
      modifies this
      ensures View() == Apply(old(View()), Op.RunTask)
    {
      if tasks == [] {
        return;
      }
      var task := tasks[0];
      tasks := tasks[1..];
      match task
      case Cancel(cb) => fired := fired + [cb];
      case WakeOne =>
        if slot.Some? {
          var cb := slot.value;
          slot := None;
          fired := fired + [cb];
        }
    }
  }
}
