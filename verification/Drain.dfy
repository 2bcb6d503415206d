/**
 Teardown of the HTTP server: requests are counted by guards, Close stops accepting, waits for
 the count to reach zero, joins the listener and destroys the handlers. Each access to the
 counter and each operation on the drain mutex is a step of its own.
 */
module Drain {

  /**
   A worker of the listener. A request holds one guard; a streaming request takes a second one
   before it gives back the first. `Leaving` is a guard destructor behind its fetch_sub, which
   must still wake the drain if it was the last.
   */
  datatype Worker = Off | Idle | Counted | Both | Streaming | Leaving(last: bool) | Notifying | Notified

  /** The closing thread, from StopAccepting to the destruction of the handlers. */
  datatype Closer =
    | Serving | Stopped | Checking | AboutToSleep | Sleeping | Woken | TimedOut | Drained | Joined | Destroyed

  datatype Holder = Nobody | Drainer | HeldBy(worker: nat)

  datatype Server = Server(active: int, workers: seq<Worker>, closer: Closer, mutex: Holder)

  datatype Action =
    | Begin(i: nat) | HandOver(i: nat) | DropFirst(i: nat) | Finish(i: nat) | Leave(i: nat)
    | LockToNotify(i: nat) | Notify(i: nat) | Unlock(i: nat)
    | StopAccepting | LockToCheck | Check | Sleep | Wake | GiveUp | Recheck | Join | Destroy

  predicate At(s: Server, i: nat, w: Worker) { i < |s.workers| && s.workers[i] == w }

  predicate Enabled(s: Server, a: Action) {
    match a
    case Begin(i) => At(s, i, Idle)
    case HandOver(i) => At(s, i, Counted)
    case DropFirst(i) => At(s, i, Both)
    case Finish(i) => At(s, i, Counted) || At(s, i, Streaming)
    case Leave(i) => At(s, i, Leaving(false))
    case LockToNotify(i) => At(s, i, Leaving(true)) && s.mutex.Nobody?
    case Notify(i) => At(s, i, Notifying)
    case Unlock(i) => At(s, i, Notified)
    case StopAccepting => s.closer.Serving?
    case LockToCheck => (s.closer.Stopped? || s.closer.Woken?) && s.mutex.Nobody?
    case Check => s.closer.Checking?
    case Sleep => s.closer.AboutToSleep?
    case Wake => s.closer.Sleeping?
    case GiveUp => s.closer.AboutToSleep?
    case Recheck => s.closer.TimedOut?
    case Join => s.closer.Drained? && forall i :: 0 <= i < |s.workers| ==> s.workers[i].Idle?
    case Destroy => s.closer.Joined?
  }

  function Set(s: Server, i: nat, w: Worker): Server
    requires i < |s.workers|
  {
    s.(workers := s.workers[i := w])
  }

  function Next(s: Server, a: Action): Server
    requires Enabled(s, a)
  {
    match a
    case Begin(i) => Set(s, i, Counted).(active := s.active + 1)
    case HandOver(i) => Set(s, i, Both).(active := s.active + 1)
    case DropFirst(i) => Set(s, i, if s.active == 1 then Leaving(true) else Streaming).(active := s.active - 1)
    case Finish(i) => Set(s, i, Leaving(s.active == 1)).(active := s.active - 1)
    case Leave(i) => Set(s, i, Idle)
    case LockToNotify(i) => Set(s, i, Notifying).(mutex := HeldBy(i))
    case Notify(i) => Set(s, i, Notified).(closer := if s.closer.Sleeping? then Woken else s.closer)
    case Unlock(i) => Set(s, i, Idle).(mutex := Nobody)
    case StopAccepting => s.(closer := Stopped)
    case LockToCheck => s.(closer := Checking, mutex := Drainer)
    case Check => if s.active == 0 then s.(closer := Drained, mutex := Nobody) else s.(closer := AboutToSleep)
    case Sleep => s.(closer := Sleeping, mutex := Nobody)
    case Wake => s.(closer := Woken)
    case GiveUp => s.(closer := TimedOut, mutex := Nobody)
    case Recheck => s.(closer := if s.active == 0 then Drained else Stopped)
    case Join => s.(closer := Joined, workers := seq(|s.workers|, i => Off))
    case Destroy => s.(closer := Destroyed)
  }

  // ---- what every step keeps ----

  /** How many guards a worker's request holds. */
  function Guards(w: Worker): nat {
    match w
    case Counted => 1
    case Both => 2
    case Streaming => 1
    case _ => 0
  }

  function LiveGuards(workers: seq<Worker>): nat {
    if workers == [] then 0 else LiveGuards(workers[..|workers| - 1]) + Guards(workers[|workers| - 1])
  }

  lemma {:induction false} GuardsChange(workers: seq<Worker>, i: nat, w: Worker)
    requires i < |workers|
    ensures LiveGuards(workers[i := w]) == LiveGuards(workers) - Guards(workers[i]) + Guards(w)
    ensures Guards(workers[i]) <= LiveGuards(workers)
  {
    var n := |workers| - 1;
    if i == n {
      assert workers[i := w][..n] == workers[..n];
    } else {
      GuardsChange(workers[..n], i, w);
      assert workers[i := w][..n] == workers[..n][i := w];
    }
  }

  lemma {:induction false} NoGuards(workers: seq<Worker>)
    requires forall i :: 0 <= i < |workers| ==> Guards(workers[i]) == 0
    ensures LiveGuards(workers) == 0
  {
    if workers != [] { NoGuards(workers[..|workers| - 1]); }
  }

  /** A destructor that has yet to notify. */
  predicate WillNotify(w: Worker) { w == Leaving(true) || w.Notifying? }

  predicate SomeWillNotify(s: Server) { exists i :: 0 <= i < |s.workers| && WillNotify(s.workers[i]) }

  predicate DrainerHolds(c: Closer) { c.Checking? || c.AboutToSleep? }

  predicate WorkersGone(c: Closer) { c.Joined? || c.Destroyed? }

  predicate Inv(s: Server) {
    && s.active == LiveGuards(s.workers)
    && (s.mutex.Drainer? <==> DrainerHolds(s.closer)) && (s.mutex.HeldBy? ==> s.mutex.worker < |s.workers|)
    && (forall i :: 0 <= i < |s.workers| ==> (s.workers[i].Notifying? || s.workers[i].Notified? <==> s.mutex == HeldBy(i)))
    && (s.closer.Sleeping? || s.closer.AboutToSleep? ==> s.active > 0 || SomeWillNotify(s))
    && (forall i :: 0 <= i < |s.workers| ==> (s.workers[i].Off? <==> WorkersGone(s.closer)))
  }

  lemma WorkerKeeps(s: Server, s': Server, i: nat, w: Worker)
    requires Inv(s) && i < |s.workers| && !s.workers[i].Off? && !w.Off? && s'.workers == s.workers[i := w]
    requires s'.active == s.active - Guards(s.workers[i]) + Guards(w)
    requires (s'.closer == s.closer || (s.closer.Sleeping? && s'.closer.Woken?))
    requires s'.mutex == s.mutex || (s.mutex.Nobody? && s'.mutex == HeldBy(i)) || (s.mutex == HeldBy(i) && s'.mutex.Nobody?)
    requires w.Notifying? || w.Notified? <==> s'.mutex == HeldBy(i)
    requires s'.closer.Sleeping? || s'.closer.AboutToSleep? ==> (WillNotify(s.workers[i]) ==> WillNotify(w))
    requires s'.active == 0 && s.active > 0 ==> WillNotify(w)
    ensures Inv(s')
  {
    GuardsChange(s.workers, i, w);
    if (s'.closer.Sleeping? || s'.closer.AboutToSleep?) && s'.active == 0 {
      if s.active > 0 {
        assert WillNotify(s'.workers[i]);
      } else {
        var k :| 0 <= k < |s.workers| && WillNotify(s.workers[k]);
        assert WillNotify(s'.workers[k]);
      }
    }
  }

  lemma StepKeeps(s: Server, a: Action)
    requires Inv(s) && Enabled(s, a)
    ensures Inv(Next(s, a))
  {
    var s' := Next(s, a);
    match a
    case Begin(i) => WorkerKeeps(s, s', i, Counted);
    case HandOver(i) => WorkerKeeps(s, s', i, Both);
    case DropFirst(i) => DropKeeps(s, i);
    case Finish(i) => FinishKeeps(s, i);
    case Leave(i) => WorkerKeeps(s, s', i, Idle);
    case LockToNotify(i) => WorkerKeeps(s, s', i, Notifying);
    case Notify(i) =>
      assert s.mutex == HeldBy(i);
      WorkerKeeps(s, s', i, Notified);
    case Unlock(i) => WorkerKeeps(s, s', i, Idle);
    case _ => CloserKeeps(s, a);
  }

  lemma DropKeeps(s: Server, i: nat)
    requires Inv(s) && Enabled(s, DropFirst(i))
    ensures Inv(Next(s, DropFirst(i)))
  {
    GuardsChange(s.workers, i, Streaming);
    WorkerKeeps(s, Next(s, DropFirst(i)), i, Streaming);
  }

  lemma FinishKeeps(s: Server, i: nat)
    requires Inv(s) && Enabled(s, Finish(i))
    ensures Inv(Next(s, Finish(i)))
  {
    GuardsChange(s.workers, i, Leaving(s.active == 1));
    WorkerKeeps(s, Next(s, Finish(i)), i, Leaving(s.active == 1));
  }

  predicate IsCloserStep(a: Action) {
    a.StopAccepting? || a.LockToCheck? || a.Check? || a.Sleep? || a.Wake? || a.GiveUp? || a.Recheck? || a.Join? || a.Destroy?
  }

  lemma CloserKeeps(s: Server, a: Action)
    requires Inv(s) && IsCloserStep(a) && Enabled(s, a)
    ensures Inv(Next(s, a))
  {
    if a.Join? {
      NoGuards(s.workers);
      NoGuards(Next(s, a).workers);
    }
  }

  predicate CanRun(s: Server, actions: seq<Action>)
    decreases |actions|
  {
    actions == [] || (Enabled(s, actions[0]) && CanRun(Next(s, actions[0]), actions[1..]))
  }

  function RunAll(s: Server, actions: seq<Action>): Server
    requires CanRun(s, actions)
    decreases |actions|
  {
    if actions == [] then s else RunAll(Next(s, actions[0]), actions[1..])
  }

  function Start(workers: nat): Server { Server(0, seq(workers, i => Idle), Serving, Nobody) }

  lemma {:induction false} RunKeeps(s: Server, actions: seq<Action>)
    requires CanRun(s, actions) && Inv(s)
    ensures Inv(RunAll(s, actions))
    decreases |actions|
  {
    if actions != [] {
      StepKeeps(s, actions[0]);
      RunKeeps(Next(s, actions[0]), actions[1..]);
    }
  }

  /** A guard lives, or the destructor of one is still running. */
  predicate InRequest(w: Worker) { !w.Off? && !w.Idle? }

  /**
   Safe teardown, in every interleaving: the counter is the number of live guards; a drain that
   sleeps although the count is zero has its wake-up on the way; and when the listener has been
   joined, so also when the handlers are destroyed, no guard lives and no guard destructor runs.
   */
  lemma SafeTeardown(workers: nat, actions: seq<Action>)
    requires CanRun(Start(workers), actions)
    ensures var s := RunAll(Start(workers), actions);
            s.active == LiveGuards(s.workers)
            && (s.closer.Sleeping? && s.active == 0 ==> SomeWillNotify(s))
            && (s.closer.Joined? || s.closer.Destroyed? ==> forall i :: 0 <= i < |s.workers| ==> !InRequest(s.workers[i]))
  {
    NoGuards(Start(workers).workers);
    RunKeeps(Start(workers), actions);
  }

  /** The closing thread takes the server for drained exactly when it looks at the counter and no guard lives. */
  lemma DrainedMeansEmpty(workers: nat, actions: seq<Action>, a: Action)
    requires CanRun(Start(workers), actions) && Enabled(RunAll(Start(workers), actions), a)
    ensures var s := RunAll(Start(workers), actions);
            Next(s, a).closer.Drained? <==>
            if s.closer.Drained? then !a.Join? else (a.Check? || a.Recheck?) && LiveGuards(s.workers) == 0
  {
    NoGuards(Start(workers).workers);
    RunKeeps(Start(workers), actions);
  }

  /** The hand-over: dropping the first guard never takes a streaming request out of the count. */
  lemma HandOverKeepsCount(workers: nat, actions: seq<Action>, i: nat)
    requires CanRun(Start(workers), actions) && Enabled(RunAll(Start(workers), actions), DropFirst(i))
    ensures var s := Next(RunAll(Start(workers), actions), DropFirst(i));
            s.workers[i] == Streaming && s.active >= 1
  {
    NoGuards(Start(workers).workers);
    RunKeeps(Start(workers), actions);
    var s := RunAll(Start(workers), actions);
    GuardsChange(s.workers, i, Streaming);
  }

  predicate IsNotifierStep(a: Action) { a.LockToNotify? || a.Notify? || a.Unlock? }

  lemma RunCons(s: Server, a: Action, rest: seq<Action>)
    requires Enabled(s, a) && CanRun(Next(s, a), rest)
    ensures CanRun(s, [a] + rest) && RunAll(s, [a] + rest) == RunAll(Next(s, a), rest)
  {
    assert ([a] + rest)[1..] == rest;
  }

  /** With the mutex free, the last guard's destructor takes it and notifies. */
  lemma FreeMutexWakes(s: Server) returns (actions: seq<Action>)
    requires Inv(s) && s.closer.Sleeping? && s.active == 0 && s.mutex.Nobody?
    ensures CanRun(s, actions) && RunAll(s, actions).closer.Woken? && |actions| == 2
    ensures forall a :: a in actions ==> IsNotifierStep(a)
  {
    var i: nat :| i < |s.workers| && WillNotify(s.workers[i]);
    assert s.workers[i] == Leaving(true);
    var s1 := Next(s, LockToNotify(i));
    var s2 := Next(s1, Notify(i));
    assert CanRun(s2, []) && RunAll(s2, []) == s2;
    RunCons(s1, Notify(i), []);
    RunCons(s, LockToNotify(i), [Notify(i)] + []);
    actions := [LockToNotify(i)] + ([Notify(i)] + []);
  }

  /**
   No wake-up is lost: from every state in which the drain sleeps although the count is zero,
   whoever holds the mutex, at most three steps of guard destructors wake it.
   */
  lemma WakeUpArrives(s: Server) returns (actions: seq<Action>)
    requires Inv(s) && s.closer.Sleeping? && s.active == 0
    ensures CanRun(s, actions) && RunAll(s, actions).closer.Woken? && |actions| <= 3
    ensures forall a :: a in actions ==> IsNotifierStep(a)
  {
    if s.mutex.Nobody? {
      actions := FreeMutexWakes(s);
    } else {
      var j := s.mutex.worker;
      if At(s, j, Notifying) {
        var s1 := Next(s, Notify(j));
        assert CanRun(s1, []) && RunAll(s1, []) == s1;
        RunCons(s, Notify(j), []);
        actions := [Notify(j)] + [];
      } else {
        StepKeeps(s, Unlock(j));
        var rest := FreeMutexWakes(Next(s, Unlock(j)));
        RunCons(s, Unlock(j), rest);
        actions := [Unlock(j)] + rest;
      }
    }
  }
}
