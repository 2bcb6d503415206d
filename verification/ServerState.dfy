/**
 The process-wide server state: Start and Stop count generations, and a waiter waits for its
 own generation to be stopped, through later restarts.
 */
module ServerState {
  import opened Bytes

  datatype State = Snapshot(running: Option<bytes>, generation: nat, stoppedGeneration: nat)

  const INITIAL := Snapshot(None, 0, 0)

  /** A call as it turned out: the start may fail before the server is stored. */
  datatype Operation = Start(uri: bytes, listens: bool) | Stop(uri: bytes)

  /** Start refuses while a server runs; a start that throws changes nothing. */
  function Apply(s: State, op: Operation): State {
    match op
    case Start(uri, listens) =>
      if s.running.Some? || !listens then s else Snapshot(Some(uri), s.generation + 1, s.stoppedGeneration)
    case Stop(uri) =>
      if s.running != Some(uri) then s else Snapshot(None, s.generation, s.generation)
  }

  class HarborServerState {
    var server: Option<bytes>
    var generation: nat
    var stoppedGeneration: nat

    function State(): State
      reads this
    {
      Snapshot(server, generation, stoppedGeneration)
    }

    constructor ()
      ensures State() == INITIAL
    {
      server, generation, stoppedGeneration := None, 0, 0;
    }

    method Start(uri: bytes, listens: bool) returns (ok: bool)
      modifies this
      ensures State() == Apply(old(State()), Operation.Start(uri, listens))
      ensures ok <==> old(server).None? && listens
    {
      if server.Some? {
        return false;
      }
      if !listens {
        return false;
      }
      server := Some(uri);
      generation := generation + 1;
      return true;
    }

    method Stop(uri: bytes) returns (ok: bool)
      modifies this
      ensures State() == Apply(old(State()), Operation.Stop(uri))
      ensures ok <==> old(server) == Some(uri)
    {
      if server.None? {
        return false;
      }
      if server.value != uri {
        return false;
      }
      server := None;
      stoppedGeneration := generation;
      return true;
    }
  }

  function Run(s: State, ops: seq<Operation>): State {
    if ops == [] then s else Apply(Run(s, ops[..|ops| - 1]), ops[|ops| - 1])
  }

  /** The condition a waiter that began at generation `mine` waits for. */
  predicate WaitOver(s: State, mine: nat) { s.stoppedGeneration >= mine }

  predicate Inv(s: State) {
    s.stoppedGeneration <= s.generation && (s.running.Some? <==> s.stoppedGeneration < s.generation)
  }

  lemma {:induction false} RunKeeps(s: State, ops: seq<Operation>)
    requires Inv(s)
    ensures Inv(Run(s, ops)) && Run(s, ops).generation >= s.generation && Run(s, ops).stoppedGeneration >= s.stoppedGeneration
  {
    if ops != [] { RunKeeps(s, ops[..|ops| - 1]); }
  }

  /** A server is running exactly when the last generation has not been stopped. */
  lemma RunningIsUnstopped(ops: seq<Operation>)
    ensures var s := Run(INITIAL, ops);
            s.running.Some? <==> s.stoppedGeneration < s.generation
  {
    RunKeeps(INITIAL, ops);
  }

  /** The call at `k` starts a server at `uri`, and none was running. */
  predicate StartsAt(ops: seq<Operation>, k: nat, uri: bytes) {
    k < |ops| && ops[k] == Start(uri, true) && Run(INITIAL, ops[..k]).running == None
  }

  /** A server runs at an address exactly when a start there succeeded and no Stop of that address has come since. */
  lemma {:induction false} RunningIsStarted(ops: seq<Operation>, uri: bytes)
    ensures Run(INITIAL, ops).running == Some(uri)
            <==> exists k: nat :: StartsAt(ops, k, uri) && Stop(uri) !in ops[k + 1..]
    decreases |ops|
  {
    if ops != [] {
      var n := |ops| - 1;
      var past := ops[..n];
      RunningIsStarted(past, uri);
      forall k: nat | k < n
        ensures StartsAt(past, k, uri) <==> StartsAt(ops, k, uri)
        ensures Stop(uri) !in ops[k + 1..] <==> Stop(uri) !in past[k + 1..] && ops[n] != Stop(uri)
      {
        assert past[..k] == ops[..k] && ops[k + 1..] == past[k + 1..] + [ops[n]];
      }
      if Run(INITIAL, ops).running == Some(uri) {
        if Run(INITIAL, past).running == Some(uri) {
          var k: nat :| StartsAt(past, k, uri) && Stop(uri) !in past[k + 1..];
          assert StartsAt(ops, k, uri) && Stop(uri) !in ops[k + 1..];
        } else {
          assert StartsAt(ops, n, uri) && Stop(uri) !in ops[n + 1..];
        }
      }
    }
  }

  /** How many starts have succeeded. */
  function Starts(ops: seq<Operation>): nat {
    if ops == [] then 0
    else
      var n := |ops| - 1;
      Starts(ops[..n]) + if ops[n].Start? && StartsAt(ops, n, ops[n].uri) then 1 else 0
  }

  /** The generation is the number of successful starts. */
  lemma {:induction false} GenerationCounts(ops: seq<Operation>)
    ensures Run(INITIAL, ops).generation == Starts(ops)
    decreases |ops|
  {
    if ops != [] { GenerationCounts(ops[..|ops| - 1]); }
  }

  /** The call at `k` stops the server that was running at the start. */
  predicate StopsAt(s: State, ops: seq<Operation>, k: nat) {
    k < |ops| && ops[k].Stop? && Run(s, ops[..k]).running == Some(ops[k].uri)
  }

  /** Some call since has stopped a server. */
  ghost predicate StoppedSince(s: State, ops: seq<Operation>) { exists k: nat :: StopsAt(s, ops, k) }

  lemma {:induction false} RunConcat(s: State, a: seq<Operation>, b: seq<Operation>)
    ensures Run(s, a + b) == Run(Run(s, a), b)
    decreases |b|
  {
    if b == [] {
      assert a + b == a;
    } else {
      assert (a + b)[..|a + b| - 1] == a + b[..|b| - 1];
      RunConcat(s, a, b[..|b| - 1]);
    }
  }

  lemma {:induction false} WaitOverOnStop(s: State, ops: seq<Operation>)
    requires Inv(s) && s.running.Some?
    ensures WaitOver(Run(s, ops), s.generation) <==> StoppedSince(s, ops)
    ensures !StoppedSince(s, ops) ==> Run(s, ops) == s
    decreases |ops|
  {
    if ops != [] {
      var n := |ops| - 1;
      var past := ops[..n];
      WaitOverOnStop(s, past);
      RunKeeps(s, past);
      if StoppedSince(s, past) {
        var k: nat :| StopsAt(s, past, k);
        assert past[..k] == ops[..k];
        assert StopsAt(s, ops, k);
      } else if StopsAt(s, ops, n) {
      } else {
        forall k: nat | k < |ops| ensures !StopsAt(s, ops, k) {
          if k < n {
            assert past[..k] == ops[..k] && past[k] == ops[k];
            assert !StopsAt(s, past, k);
          }
        }
      }
    }
  }

  /**
   Waiters over whole runs: a Wait that begins while a server runs is over exactly when a Stop
   since has succeeded, the first of which stopped the server it began with, and it stays over
   through whatever follows, restarts included.
   */
  lemma WaitEndsWithItsServer(before: seq<Operation>, ops: seq<Operation>, later: seq<Operation>)
    requires Run(INITIAL, before).running.Some?
    ensures var s := Run(INITIAL, before);
            (WaitOver(Run(s, ops), s.generation) <==> StoppedSince(s, ops))
            && (WaitOver(Run(s, ops), s.generation) ==> WaitOver(Run(s, ops + later), s.generation))
  {
    var s := Run(INITIAL, before);
    RunKeeps(INITIAL, before);
    WaitOverOnStop(s, ops);
    RunKeeps(s, ops);
    RunConcat(s, ops, later);
    RunKeeps(Run(s, ops), later);
  }

  /** Until the first Stop nothing changes, so that Stop meets the very server the waiter began with. */
  lemma FirstStopIsOfItsServer(before: seq<Operation>, ops: seq<Operation>, k: nat)
    requires Run(INITIAL, before).running.Some?
    requires var s := Run(INITIAL, before);
             StopsAt(s, ops, k) && forall j: nat :: j < k ==> !StopsAt(s, ops, j)
    ensures var s := Run(INITIAL, before);
            Run(s, ops[..k]) == s && ops[k].uri == s.running.value
  {
    var s := Run(INITIAL, before);
    RunKeeps(INITIAL, before);
    forall j: nat | j < k ensures !StopsAt(s, ops[..k], j) {
      assert ops[..k][..j] == ops[..j] && ops[..k][j] == ops[j];
      assert !StopsAt(s, ops, j);
    }
    WaitOverOnStop(s, ops[..k]);
  }
}
