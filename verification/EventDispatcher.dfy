/**
 The dispatcher of server-sent events. A waiter remembers the id of the next event, waits for a
 notification or a timeout, and compares; waiting gives up the mutex, so beginning and ending a
 wait are two steps.
 */
module EventDispatcher {
  import opened Bytes

  const MAX_WAITERS := 3

  /** A waiter: the id it is waiting for and, for the proof, the messages sent since it began. */
  datatype Waiter = Waiter(target: int, since: seq<bytes>)

  datatype Dispatcher = Dispatcher(nextId: int, currentId: int, waitCount: int, message: bytes, closed: bool, waiters: map<nat, Waiter>)

  const INITIAL := Dispatcher(0, -1, 0, [], false, map[])

  datatype Action = BeginWait(id: nat) | EndWait(id: nat) | Send(text: bytes) | Close

  /** What a wait writes to its client. */
  datatype Write = Nothing | Empty | Text(text: bytes)

  predicate Enabled(d: Dispatcher, a: Action) {
    match a
    case BeginWait(id) => id !in d.waiters
    case EndWait(id) => id in d.waiters
    case _ => true
  }

  function Noted(ws: map<nat, Waiter>, text: bytes): map<nat, Waiter> {
    map id | id in ws :: Waiter(ws[id].target, ws[id].since + [text])
  }

  function Next(d: Dispatcher, a: Action): Dispatcher
    requires Enabled(d, a)
  {
    match a
    case BeginWait(id) =>
      if d.closed || d.waitCount >= MAX_WAITERS then d
      else d.(waitCount := d.waitCount + 1, waiters := d.waiters[id := Waiter(d.nextId, [])])
    case EndWait(id) => d.(waitCount := d.waitCount - 1, waiters := d.waiters - {id})
    case Send(text) =>
      if d.closed then d
      else d.(currentId := d.nextId, nextId := d.nextId + 1, message := text, waiters := Noted(d.waiters, text))
    case Close => if d.closed then d else d.(currentId := d.nextId, nextId := d.nextId + 1, closed := true)
  }

  /** What EndWait writes: nothing once the dispatcher is closed. */
  function Written(d: Dispatcher, id: nat): Write
    requires id in d.waiters
  {
    if d.closed then Nothing else if d.currentId == d.waiters[id].target then Text(d.message) else Empty
  }

  /**
   The dispatcher's methods, each the part of the source's function that runs under the mutex
   without a break, and each a step of the machine.
   */
  class EventDispatcher {
    var nextId: int
    var currentId: int
    var waitCount: int
    var message: bytes
    var closed: bool

    /** The dispatcher is in the machine's state `d`. */
    predicate Shows(d: Dispatcher)
      reads this
    {
      nextId == d.nextId && currentId == d.currentId && waitCount == d.waitCount && message == d.message && closed == d.closed
    }

    constructor ()
      ensures Shows(INITIAL)
      ensures nextId == 0 && currentId == -1 && waitCount == 0 && message == [] && !closed
    {
      nextId, currentId, waitCount, message, closed := 0, -1, 0, [], false;
    }

    /** WaitEvent up to the wait; None is its early return. */
    method BeginWaitEvent(ghost d: Dispatcher, ghost id: nat) returns (target: Option<int>)
      requires Shows(d) && Enabled(d, BeginWait(id))
      modifies this`waitCount
      ensures Shows(Next(d, BeginWait(id)))
      ensures target.Some? <==> id in Next(d, BeginWait(id)).waiters
      ensures target.Some? ==> Next(d, BeginWait(id)).waiters[id].target == target.value
      ensures target == if closed || old(waitCount) >= MAX_WAITERS then None else Some(nextId)
      ensures waitCount == if target.Some? then old(waitCount) + 1 else old(waitCount)
    {
      if closed || waitCount >= MAX_WAITERS {
        return None;
      }
      waitCount := waitCount + 1;
      return Some(nextId);
    }

    /** WaitEvent behind the wait. */
    method EndWaitEvent(target: int, ghost d: Dispatcher, ghost id: nat) returns (w: Write)
      requires Shows(d) && Enabled(d, EndWait(id)) && d.waiters[id].target == target
      modifies this`waitCount
      ensures Shows(Next(d, EndWait(id))) && w == Written(d, id)
      ensures waitCount == old(waitCount) - 1
      ensures w == if closed then Nothing else if currentId == target then Text(message) else Empty
    {
      waitCount := waitCount - 1;
      if closed {
        return Nothing;
      }
      return if currentId == target then Text(message) else Empty;
    }

    method SendEvent(text: bytes, ghost d: Dispatcher)
      requires Shows(d)
      modifies this
      ensures Shows(Next(d, Send(text)))
      ensures if old(closed) then unchanged(this)
              else currentId == old(nextId) && nextId == old(nextId) + 1 && message == text && !closed
                   && waitCount == old(waitCount)
    {
      if closed {
        return;
      }
      currentId := nextId;
      nextId := nextId + 1;
      message := text;
    }

    method Close(ghost d: Dispatcher)
      requires Shows(d)
      modifies this
      ensures Shows(Next(d, Action.Close))
      ensures closed && waitCount == old(waitCount) && message == old(message)
      ensures if old(closed) then unchanged(this) else currentId == old(nextId) && nextId == old(nextId) + 1
    {
      if closed {
        return;
      }
      currentId := nextId;
      nextId := nextId + 1;
      closed := true;
    }
  }

  // ---- whole runs ----

  predicate WaiterOk(d: Dispatcher, w: Waiter) {
    !d.closed ==> d.nextId == w.target + |w.since| && (w.since != [] ==> w.since[|w.since| - 1] == d.message)
  }

  predicate Inv(d: Dispatcher) {
    && d.currentId == d.nextId - 1
    && d.waitCount == |d.waiters| <= MAX_WAITERS
    && forall id :: id in d.waiters ==> WaiterOk(d, d.waiters[id])
  }

  lemma StepKeeps(d: Dispatcher, a: Action)
    requires Inv(d) && Enabled(d, a)
    ensures Inv(Next(d, a))
  {
    match a
    case EndWait(id) => EndKeeps(d, id);
    case BeginWait(id) => BeginKeeps(d, id);
    case Send(text) => SendKeeps(d, text);
    case Close =>
  }

  lemma EndKeeps(d: Dispatcher, id: nat)
    requires Inv(d) && id in d.waiters
    ensures Inv(Next(d, EndWait(id)))
  {
    var rest := d.waiters - {id};
    assert d.waiters.Keys == rest.Keys + {id};
    assert |d.waiters.Keys| == |rest.Keys| + 1;
  }

  lemma BeginKeeps(d: Dispatcher, id: nat)
    requires Inv(d) && id !in d.waiters
    ensures Inv(Next(d, BeginWait(id)))
  {
    var more := d.waiters[id := Waiter(d.nextId, [])];
    assert more.Keys == d.waiters.Keys + {id};
    assert |more.Keys| == |d.waiters.Keys| + 1;
  }

  lemma SendKeeps(d: Dispatcher, text: bytes)
    requires Inv(d)
    ensures Inv(Next(d, Send(text)))
  {
    assert Noted(d.waiters, text).Keys == d.waiters.Keys;
  }

  predicate CanRun(d: Dispatcher, actions: seq<Action>)
    decreases |actions|
  {
    actions == [] || (Enabled(d, actions[0]) && CanRun(Next(d, actions[0]), actions[1..]))
  }

  function RunAll(d: Dispatcher, actions: seq<Action>): Dispatcher
    requires CanRun(d, actions)
    decreases |actions|
  {
    if actions == [] then d else RunAll(Next(d, actions[0]), actions[1..])
  }

  lemma {:induction false} RunKeeps(d: Dispatcher, actions: seq<Action>)
    requires CanRun(d, actions) && Inv(d)
    ensures Inv(RunAll(d, actions))
    decreases |actions|
  {
    if actions != [] {
      StepKeeps(d, actions[0]);
      RunKeeps(Next(d, actions[0]), actions[1..]);
    }
  }

  /** A wait is admitted exactly while the dispatcher is open and fewer than three wait; and it waits for the next event. */
  lemma AdmittedIff(actions: seq<Action>, id: nat)
    requires CanRun(INITIAL, actions) && Enabled(RunAll(INITIAL, actions), BeginWait(id))
    ensures var d := RunAll(INITIAL, actions);
            var after := Next(d, BeginWait(id));
            (id in after.waiters <==> !d.closed && |d.waiters| < 3)
            && (id in after.waiters ==> after.waiters[id].target == d.nextId && after.waiters[id].since == [])
  {
    RunKeeps(INITIAL, actions);
  }

  /**
   At any moment at most three wait and the current id is the one before the next; and a waiter
   that ends its wait writes a message exactly when one event was sent since it began, then
   that event, and a no-op otherwise.
   */
  lemma OneEventPerWait(actions: seq<Action>, id: nat)
    requires CanRun(INITIAL, actions)
    ensures var d := RunAll(INITIAL, actions);
            0 <= d.waitCount <= 3 && d.currentId == d.nextId - 1
            && (id in d.waiters && d.closed ==> Written(d, id) == Nothing)
            && (id in d.waiters && !d.closed ==>
                  Written(d, id) == if |d.waiters[id].since| == 1 then Text(d.waiters[id].since[0]) else Empty)
  {
    RunKeeps(INITIAL, actions);
    var d := RunAll(INITIAL, actions);
    if id in d.waiters { assert WaiterOk(d, d.waiters[id]); }
  }
}
