/**
 * The shared integer buffer of the producer/consumer runner: one array of
 * PRO_CON_QUEUE_SIZE integers and one cursor into it.  Despite its name it is
 * not a ring buffer: push writes at the cursor and moves it up, pop reads at
 * the cursor and moves it down, and both clamp the cursor to the array.
 *
 * The module has two layers.  QueueState and its functions are the value-level
 * specification; SharedQueue is the in-place model of the C globals `Queue`
 * and `Q_Index` and of the four functions that use them, proved against it.
 */
module ProdConQueue {

  /** PRO_CON_QUEUE_SIZE */
  const QueueSize: int := 100

  /** The buffer as a value: the contents of every slot and the cursor. */
  datatype QueueState = QueueState(slots: seq<int>, cursor: int)

  /** The invariant of the buffer: one slot per array element, and a cursor
      that indexes one of them. */
  predicate WellFormed(s: QueueState) {
    |s.slots| == QueueSize && 0 <= s.cursor < QueueSize
  }

  /** What one push does to the buffer. */
  function Pushed(s: QueueState, value: int): (r: QueueState)
    requires WellFormed(s)
    ensures WellFormed(r)
    ensures r.slots[s.cursor] == value
    ensures forall j | 0 <= j < QueueSize && j != s.cursor :: r.slots[j] == s.slots[j]
    ensures s.cursor < QueueSize - 1 ==> r.cursor == s.cursor + 1
    ensures s.cursor == QueueSize - 1 ==> r.cursor == s.cursor
  {
    var next := s.cursor + 1;
    QueueState(s.slots[s.cursor := value], if next >= QueueSize then QueueSize - 1 else next)
  }

  /** What one pop does to the buffer, and the value it reads. */
  datatype PopResult = PopResult(state: QueueState, value: int)

  function Popped(s: QueueState): (r: PopResult)
    requires WellFormed(s)
    ensures WellFormed(r.state)
    ensures r.state.slots == s.slots
    ensures r.value == s.slots[s.cursor]
    ensures s.cursor > 0 ==> r.state.cursor == s.cursor - 1
    ensures s.cursor == 0 ==> r.state.cursor == 0
  {
    var next := s.cursor - 1;
    PopResult(QueueState(s.slots, if next < 0 then 0 else next), s.slots[s.cursor])
  }

  /** One call on the buffer, as the producers and consumers make them
      while holding the mutex. */
  datatype QueueOp = PushOp(value: int) | PopOp

  function Apply(s: QueueState, op: QueueOp): (r: QueueState)
    requires WellFormed(s)
  {
    match op
    case PushOp(v) => Pushed(s, v)
    case PopOp => Popped(s).state
  }

  /** The buffer after a serialised history of calls.  Its contract is the
      memory-safety claim for any interleaving the mutex allows: every call
      in the history finds the cursor inside the array. */
  function Replay(s: QueueState, ops: seq<QueueOp>): (r: QueueState)
    requires WellFormed(s)
    ensures WellFormed(r)
    ensures |ops| == 0 ==> r == s
    decreases |ops|
  {
    if |ops| == 0 then s else Replay(Apply(s, ops[0]), ops[1..])
  }

  function PushAll(values: seq<int>): (ops: seq<QueueOp>)
    ensures |ops| == |values|
    ensures forall j | 0 <= j < |values| :: ops[j] == PushOp(values[j])
  {
    if |values| == 0 then [] else [PushOp(values[0])] + PushAll(values[1..])
  }

  /** Pushes fill the array upwards from the cursor, one slot each, as long
      as they do not reach the last slot.  From the empty buffer this means
      the cursor reaches QueueSize - 1, where the buffer reports full, after
      QueueSize - 1 pushes. */
  lemma {:induction false} PushesFillUpwards(s: QueueState, values: seq<int>)
    requires WellFormed(s)
    requires s.cursor + |values| <= QueueSize - 1
    ensures Replay(s, PushAll(values)).cursor == s.cursor + |values|
    ensures Replay(s, PushAll(values)).slots[s.cursor .. s.cursor + |values|] == values
    ensures forall j | 0 <= j < QueueSize && !(s.cursor <= j < s.cursor + |values|) ::
              Replay(s, PushAll(values)).slots[j] == s.slots[j]
    decreases |values|
  {
    if |values| > 0 {
      var ops := PushAll(values);
      var next := Pushed(s, values[0]);
      assert ops[1..] == PushAll(values[1..]);
      PushesFillUpwards(next, values[1..]);
      var r := Replay(s, ops);
      assert r == Replay(next, PushAll(values[1..]));
      assert r.slots[s.cursor] == values[0];
      forall j | s.cursor <= j < s.cursor + |values|
        ensures r.slots[j] == values[j - s.cursor]
      {
        if j > s.cursor {
          assert r.slots[next.cursor .. next.cursor + |values| - 1] == values[1..];
          assert r.slots[j] == r.slots[next.cursor .. next.cursor + |values| - 1][j - next.cursor];
        }
      }
    }
  }

  /** Below the top slot, a pop right after a push does not return the pushed
      value: the cursor comes back to where the push wrote, but the read
      happens one slot above it, at the slot the push moved the cursor to. */
  lemma PopAfterPushReadsAbove(s: QueueState, value: int)
    requires WellFormed(s)
    requires s.cursor < QueueSize - 1
    ensures Popped(Pushed(s, value)).value == s.slots[s.cursor + 1]
    ensures Popped(Pushed(s, value)).state == QueueState(s.slots[s.cursor := value], s.cursor)
  {
  }

  /** At the top slot the push overwrites slot QueueSize - 1 and leaves the
      cursor there, so the pop right after it returns the pushed value. */
  lemma PopAfterPushAtTop(s: QueueState, value: int)
    requires WellFormed(s)
    requires s.cursor == QueueSize - 1
    ensures Popped(Pushed(s, value)) == PopResult(QueueState(s.slots[s.cursor := value], s.cursor - 1), value)
  {
  }

  /** The C globals `Queue` and `Q_Index`, with queue_full, queue_empty,
      queue_push and queue_pop as members. */
  class SharedQueue {
    /** Queue[PRO_CON_QUEUE_SIZE]: the array itself never changes, its elements do. */
    const queue: array<int>
    /** Q_Index */
    var index: int

    ghost predicate Valid()
      reads this
    {
      queue.Length == QueueSize && 0 <= index < QueueSize
    }

    ghost function State(): QueueState
      reads this, queue
    {
      QueueState(queue[..], index)
    }

    /** The globals as the C runtime initialises them: every slot and the
        cursor zero. */
    constructor ()
      ensures Valid() && fresh(queue)
      ensures State() == QueueState(seq(QueueSize, _ => 0), 0)
    {
      queue := new int[QueueSize](_ => 0);
      index := 0;
    }

    /** queue_full */
    predicate Full()
      reads this
      ensures Valid() ==> (Full() <==> index == QueueSize - 1)
    {
      index >= QueueSize - 1
    }

    /** queue_empty: never true together with queue_full, whatever the cursor. */
    predicate Empty()
      reads this
      ensures Empty() ==> !Full()
    {
      index == 0
    }

    /** queue_push: the write is in bounds, the cursor stays in bounds. */
    method Push(value: int)
      requires Valid()
      modifies this, queue
      ensures Valid()
      ensures queue[old(index)] == value
      ensures forall j | 0 <= j < QueueSize && j != old(index) :: queue[j] == old(queue[j])
      ensures index == if old(index) < QueueSize - 1 then old(index) + 1 else QueueSize - 1
      ensures State() == Pushed(old(State()), value)
    {
      queue[index] := value;
      index := index + 1;
      if index >= QueueSize {
        index := QueueSize - 1;
      }
    }

    /** queue_pop: the read is in bounds, at the cursor itself, and leaves
        the array as it was. */
    method Pop() returns (value: int)
      requires Valid()
      modifies this
      ensures Valid()
      ensures value == old(queue[index])
      ensures queue[..] == old(queue[..])
      ensures index == if old(index) > 0 then old(index) - 1 else 0
      ensures State() == old(Popped(State()).state) && value == old(Popped(State()).value)
    {
      value := queue[index];
      index := index - 1;
      if index < 0 {
        index := 0;
      }
    }
  }
}
