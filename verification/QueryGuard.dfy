/**
 The query guard, the timeout sweeper and InterruptSession on one session. Every load or
 store of an atomic is a step of its own, so the steps of guards, sweeps and cancellations
 interleave freely. What holds of all such runs is proved here; the two traces that break the
 header's stronger claim are exhibited; and the strong claim is proved for runs in which a
 sweep of the session and an InterruptSession are each one step.
 */
module QueryGuard {
  import opened Bytes

  datatype Cause = NoCause | Timeout | UserCancel | Disconnect

  // ---- the guard object ----

  /** The atomics of a session that guards, sweeps and cancellations share. */
  class SessionAtomics {
    var queryGeneration: nat
    var timedOutGeneration: nat
    var queryDeadlineMs: int
    var queryInFlight: bool
    var interruptCause: Cause
    var lastQuery: bytes

    constructor ()
      ensures queryGeneration == timedOutGeneration == 0 && queryDeadlineMs == 0 && !queryInFlight
      ensures interruptCause == NoCause && lastQuery == []
    {
      queryGeneration, timedOutGeneration, queryDeadlineMs, queryInFlight := 0, 0, 0, false;
      interruptCause, lastQuery := NoCause, [];
    }
  }

  function DeadlineAfter(timeoutSeconds: nat, nowMs: int): int {
    if timeoutSeconds > 0 then nowMs + 1000 * timeoutSeconds else 0
  }

  class QueryExecutionGuard {
    var session: SessionAtomics?
    var myGeneration: nat

    /** The steps Bump, ResetCause, Arm and Fly of the machine below, with nothing between them. */
    constructor (s: SessionAtomics, sql: bytes, timeoutSeconds: nat, nowMs: int, ghost m: State)
      requires Shows(m, s) && m.phase.Locked? && m.clock == nowMs
      modifies s
      ensures Shows(Constructed(m, timeoutSeconds), s) && myGeneration == Constructed(m, timeoutSeconds).mine
      ensures session == s && myGeneration == s.queryGeneration == old(s.queryGeneration) + 1
      ensures s.lastQuery == sql && s.interruptCause == NoCause && s.queryInFlight
      ensures s.queryDeadlineMs == DeadlineAfter(timeoutSeconds, nowMs)
      ensures s.timedOutGeneration == old(s.timedOutGeneration)
    {
      session := s;
      myGeneration := s.queryGeneration + 1;
      new;
      s.queryGeneration := s.queryGeneration + 1;
      s.lastQuery := sql;
      s.interruptCause := NoCause;
      s.queryDeadlineMs := if timeoutSeconds > 0 then nowMs + 1000 * timeoutSeconds else 0;
      s.queryInFlight := true;
    }

    /** The destructor: nothing for a guard that was moved from, otherwise the steps Unarm and Land. */
    method Destroy(ghost m: State)
      requires session != null ==> Shows(m, session) && m.phase.Live?
      modifies session
      ensures session != null ==> Shows(Destroyed(m), session)
      ensures session != null ==> session.queryDeadlineMs == 0 && !session.queryInFlight
      ensures session != null ==> session.queryGeneration == old(session.queryGeneration)
                                  && session.timedOutGeneration == old(session.timedOutGeneration)
                                  && session.interruptCause == old(session.interruptCause)
                                  && session.lastQuery == old(session.lastQuery)
    {
      if session == null {
        return;
      }
      session.queryDeadlineMs := 0;
      session.queryInFlight := false;
    }

    /** Move construction: the query goes on under the new guard, the old one lets go. */
    constructor MoveFrom(other: QueryExecutionGuard)
      modifies other
      ensures session == old(other.session) && myGeneration == old(other.myGeneration)
      ensures other.session == null && other.myGeneration == old(other.myGeneration)
    {
      session := other.session;
      myGeneration := other.myGeneration;
      new;
      other.session := null;
    }

    /** Move assignment: releases what this guard held, unless a guard is assigned to itself. */
    method Assign(other: QueryExecutionGuard)
      modifies this, other, session
      ensures other == this ==> session == old(session) && myGeneration == old(myGeneration)
      ensures other != this ==> session == old(other.session) && myGeneration == old(other.myGeneration) && other.session == null
      ensures other != this && old(session) != null ==>
                old(session).queryDeadlineMs == 0 && !old(session).queryInFlight
                && old(session).queryGeneration == old(session.queryGeneration)
                && old(session).timedOutGeneration == old(session.timedOutGeneration)
                && old(session).interruptCause == old(session.interruptCause)
                && old(session).lastQuery == old(session.lastQuery)
      ensures other == this ==> other.session == old(session) && unchanged(this) && (session != null ==> unchanged(session))
    {
      if other != this {
        if session != null {
          session.queryDeadlineMs := 0;
          session.queryInFlight := false;
        }
        session := other.session;
        myGeneration := other.myGeneration;
        other.session := null;
      }
    }

    predicate TimedOut()
      reads this, session
    {
      session != null && session.timedOutGeneration == myGeneration
    }

    function Cause(): (c: Cause)
      reads this, session
      ensures session == null ==> c == NoCause
      ensures TimedOut() ==> c == Timeout
    {
      if session == null then NoCause else if TimedOut() then Timeout else session.interruptCause
    }
  }

  // ---- the machine: one atomic access a step ----

  /** Where the holder of the session lock is. */
  datatype Phase = Free | Locked | Bumped | CauseReset | Armed | Live | Unarmed | Landed

  /** Where a sweep of this session is: what it has read so far. */
  datatype Sweep =
    | Started(now: int)
    | SawFlight(now: int)
    | SawDeadline(now: int, deadline: int, armedBy: nat)
    | Loaded(load: Load)
    | Marked

  /** A sweep's load of the generation: after which deadline, whose, and at what time. */
  datatype Load = Load(gen: nat, now: int, deadline: int, armedBy: nat)

  /**
   The shared atomics; `interrupted`, the flag that Connection::Interrupt raises and the start
   of a query lowers; the lock holder's phase and generation; and, for the proof, the
   generations issued, the deadline each armed, and the loads the sweeps have done.
   */
  datatype State = State(gen: nat, timedOut: nat, deadline: int, inFlight: bool, cause: Cause, interrupted: bool,
                         clock: nat, phase: Phase, mine: nat, executing: bool, sweeps: map<nat, Sweep>,
                         cancels: set<nat>, issued: seq<nat>, armed: map<nat, int>, loads: set<Load>)

  const INITIAL := State(0, 0, 0, false, NoCause, false, 0, Free, 0, false, map[], {}, [], map[], {})

  datatype Action =
    | Tick(ms: nat)
    | Acquire | Bump | ResetCause | Arm(timeoutSeconds: nat) | Fly | Execute | Unarm | Land | Release
    | SweepStart(id: nat) | ReadFlight(id: nat) | ReadDeadline(id: nat) | ReadGeneration(id: nat)
    | WriteTimedOut(id: nat) | SweepInterrupt(id: nat)
    | StoreCause(id: nat, cause: Cause) | CancelInterrupt(id: nat)

  predicate Enabled(s: State, a: Action) {
    match a
    case Tick(_) => true
    case Acquire => s.phase.Free?
    case Bump => s.phase.Locked?
    case ResetCause => s.phase.Bumped?
    case Arm(_) => s.phase.CauseReset?
    case Fly => s.phase.Armed?
    case Execute => s.phase.Live? && !s.executing
    case Unarm => s.phase.Live?
    case Land => s.phase.Unarmed?
    case Release => s.phase.Landed? || s.phase.Locked?
    case SweepStart(id) => id !in s.sweeps
    case ReadFlight(id) => id in s.sweeps && s.sweeps[id].Started?
    case ReadDeadline(id) => id in s.sweeps && s.sweeps[id].SawFlight?
    case ReadGeneration(id) => id in s.sweeps && s.sweeps[id].SawDeadline?
    case WriteTimedOut(id) => id in s.sweeps && s.sweeps[id].Loaded?
    case SweepInterrupt(id) => id in s.sweeps && s.sweeps[id].Marked?
    case StoreCause(id, cause) => id !in s.cancels && (cause == UserCancel || cause == Disconnect)
    case CancelInterrupt(id) => id in s.cancels
  }

  /** A sweep that finds nothing to do is over. */
  function EndSweep(s: State, id: nat): State { s.(sweeps := s.sweeps - {id}) }

  function Next(s: State, a: Action): State
    requires Enabled(s, a)
  {
    match a
    case Tick(ms) => s.(clock := s.clock + ms)
    case Acquire => s.(phase := Locked)
    case Bump => s.(phase := Bumped, gen := s.gen + 1, mine := s.gen + 1, issued := s.issued + [s.gen + 1], executing := false)
    case ResetCause => s.(phase := CauseReset, cause := NoCause)
    case Arm(timeout) =>
      var d := DeadlineAfter(timeout, s.clock);
      s.(phase := Armed, deadline := d, armed := s.armed[s.mine := d])
    case Fly => s.(phase := Live, inFlight := true)
    case Execute => s.(executing := true, interrupted := false)
    case Unarm => s.(phase := Unarmed, deadline := 0)
    case Land => s.(phase := Landed, inFlight := false)
    case Release => s.(phase := Free)
    case SweepStart(id) => s.(sweeps := s.sweeps[id := Started(s.clock)])
    case ReadFlight(id) =>
      if s.inFlight then s.(sweeps := s.sweeps[id := SawFlight(s.sweeps[id].now)]) else EndSweep(s, id)
    case ReadDeadline(id) =>
      var now := s.sweeps[id].now;
      if s.deadline == 0 || now <= s.deadline then EndSweep(s, id)
      else s.(sweeps := s.sweeps[id := SawDeadline(now, s.deadline, s.mine)])
    case ReadGeneration(id) =>
      var w := s.sweeps[id];
      var load := Load(s.gen, w.now, w.deadline, w.armedBy);
      s.(sweeps := s.sweeps[id := Loaded(load)], loads := s.loads + {load})
    case WriteTimedOut(id) => s.(timedOut := s.sweeps[id].load.gen, sweeps := s.sweeps[id := Marked])
    case SweepInterrupt(id) => EndSweep(s, id).(interrupted := true)
    case StoreCause(id, cause) => s.(cause := cause, cancels := s.cancels + {id})
    case CancelInterrupt(id) => s.(interrupted := true, cancels := s.cancels - {id})
  }

  /** Whether the lock holder's guard exists. */
  predicate HasGuard(s: State) { !s.phase.Free? && !s.phase.Locked? }

  /** What the guard answers: TimedOut and Cause. */
  function GuardCause(s: State): Cause { if s.timedOut == s.mine then Timeout else s.cause }

  // ---- the guard object against the machine ----

  /** The session's atomics hold what the machine's state says. */
  predicate Shows(s: State, atomics: SessionAtomics)
    reads atomics
  {
    && atomics.queryGeneration == s.gen && atomics.timedOutGeneration == s.timedOut && atomics.interruptCause == s.cause
    && atomics.queryDeadlineMs == s.deadline && atomics.queryInFlight == s.inFlight
  }

  function Constructed(s: State, timeoutSeconds: nat): State
    requires s.phase.Locked?
  {
    Next(Next(Next(Next(s, Bump), ResetCause), Arm(timeoutSeconds)), Fly)
  }

  function Destroyed(s: State): State
    requires s.phase.Live?
  {
    Next(Next(s, Unarm), Land)
  }

  /** What the guard object answers is the machine's verdict. */
  lemma CauseIsVerdict(g: QueryExecutionGuard, s: State)
    requires g.session != null && Shows(s, g.session) && g.myGeneration == s.mine
    ensures g.Cause() == GuardCause(s)
  {
    assert g.TimedOut() <==> s.timedOut == s.mine;
  }

  // ---- guards that are moved ----

  /** The guard objects with the query each holds, and the queries released so far. */
  datatype Guards = Guards(held: seq<Option<nat>>, released: multiset<nat>, made: nat)

  datatype Move = Make | MoveOut(from: nat) | AssignTo(to: nat, from: nat) | Drop(i: nat)

  predicate MoveEnabled(g: Guards, m: Move) {
    match m
    case Make => true
    case MoveOut(from) => from < |g.held|
    case AssignTo(to, from) => to < |g.held| && from < |g.held|
    case Drop(i) => i < |g.held|
  }

  /** What guard `i` holds is released. */
  function LetGo(g: Guards, i: nat): Guards
    requires i < |g.held|
  {
    if g.held[i].None? then g else g.(held := g.held[i := None], released := g.released + multiset{g.held[i].value})
  }

  function Moved(g: Guards, m: Move): Guards
    requires MoveEnabled(g, m)
  {
    match m
    case Make => g.(held := g.held + [Some(g.made + 1)], made := g.made + 1)
    case MoveOut(from) => g.(held := g.held[from := None] + [g.held[from]])
    case AssignTo(to, from) =>
      if to == from then g
      else var r := LetGo(g, to); r.(held := r.held[to := r.held[from]][from := None])
    case Drop(i) => LetGo(g, i)
  }

  predicate CanMove(g: Guards, ms: seq<Move>)
    decreases |ms|
  {
    ms == [] || (MoveEnabled(g, ms[0]) && CanMove(Moved(g, ms[0]), ms[1..]))
  }

  function AllMoved(g: Guards, ms: seq<Move>): Guards
    requires CanMove(g, ms)
    decreases |ms|
  {
    if ms == [] then g else AllMoved(Moved(g, ms[0]), ms[1..])
  }

  /** How often query `q` is held or has been released. */
  ghost function Tally(g: Guards, q: nat): nat { multiset(g.held)[Some(q)] + g.released[q] }

  /** Each query made is held by one guard or has been released once, never both. */
  ghost predicate Accounted(g: Guards) { forall q: nat :: Tally(g, q) == if 1 <= q <= g.made then 1 else 0 }

  lemma LetGoTally(g: Guards, i: nat, q: nat)
    requires i < |g.held|
    ensures Tally(LetGo(g, i), q) == Tally(g, q) && LetGo(g, i).held[i].None?
  {
  }

  lemma PassedOn(held: seq<Option<nat>>, to: nat, from: nat, q: nat)
    requires to < |held| && from < |held| && to != from && held[to].None?
    ensures multiset(held[to := held[from]][from := None])[Some(q)] == multiset(held)[Some(q)]
  {
  }

  lemma {:induction false} MoveTally(g: Guards, m: Move, q: nat)
    requires MoveEnabled(g, m)
    ensures Tally(Moved(g, m), q) == Tally(g, q) + if m.Make? && q == g.made + 1 then 1 else 0
  {
    match m
    case Make =>
    case MoveOut(from) =>
      PassedOn(g.held + [None], |g.held|, from, q);
      assert (g.held + [None])[|g.held| := g.held[from]][from := None] == g.held[from := None] + [g.held[from]];
    case AssignTo(to, from) =>
      if to != from {
        LetGoTally(g, to, q);
        PassedOn(LetGo(g, to).held, to, from, q);
      }
    case Drop(i) => LetGoTally(g, i, q);
  }

  lemma MoveAccounts(g: Guards, m: Move)
    requires Accounted(g) && MoveEnabled(g, m)
    ensures Accounted(Moved(g, m))
  {
    forall q: nat ensures Tally(Moved(g, m), q) == if 1 <= q <= Moved(g, m).made then 1 else 0 {
      MoveTally(g, m, q);
    }
  }

  lemma {:induction false} MovesAccount(g: Guards, ms: seq<Move>)
    requires Accounted(g) && CanMove(g, ms)
    ensures Accounted(AllMoved(g, ms))
    decreases |ms|
  {
    if ms != [] {
      MoveAccounts(g, ms[0]);
      MovesAccount(Moved(g, ms[0]), ms[1..]);
    }
  }

  /**
   Over any sequence of constructions, moves, move assignments and destructions: a query is
   released at most once, not while a guard still holds it, and once no guard holds it exactly once.
   */
  lemma OneGuardReleases(ms: seq<Move>, q: nat)
    requires CanMove(Guards([], multiset{}, 0), ms)
    ensures var g := AllMoved(Guards([], multiset{}, 0), ms);
            1 <= q <= g.made ==> g.released[q] == if Some(q) in g.held then 0 else 1
  {
    MovesAccount(Guards([], multiset{}, 0), ms);
    var g := AllMoved(Guards([], multiset{}, 0), ms);
    assert Tally(g, q) == if 1 <= q <= g.made then 1 else 0;
    assert Some(q) in g.held <==> Some(q) in multiset(g.held);
  }

  // ---- what every interleaving keeps ----

  predicate LoadOk(s: State, l: Load) {
    && 1 <= l.gen <= s.gen && l.deadline != 0 && l.now > l.deadline && l.now <= s.clock
    && 1 <= l.armedBy <= l.gen && l.armedBy in s.armed && s.armed[l.armedBy] == l.deadline
  }

  predicate SweepOk(s: State, w: Sweep) {
    match w
    case Started(now) => now <= s.clock
    case SawFlight(now) => now <= s.clock && s.gen >= 1
    case SawDeadline(now, deadline, armer) => LoadOk(s, Load(s.gen, now, deadline, armer))
    case Loaded(load) => load in s.loads
    case Marked => true
  }

  predicate GuardOk(s: State) {
    && (HasGuard(s) ==> s.mine == s.gen && s.gen >= 1)
    && (s.inFlight <==> s.phase.Live? || s.phase.Unarmed?)
    && (s.deadline != 0 ==> s.phase.Armed? || s.phase.Live?)
    && (s.phase.Armed? || s.phase.Live? ==> s.mine in s.armed && s.armed[s.mine] == s.deadline)
    && (s.inFlight ==> s.gen >= 1)
    && (s.mine in s.armed ==> !(s.phase.Bumped? || s.phase.CauseReset?))
  }

  /** The generations are issued once each, counting up; deadlines are armed only for issued ones. */
  predicate IssuedOk(s: State) {
    && |s.issued| == s.gen && (forall i :: 0 <= i < |s.issued| ==> s.issued[i] == i + 1)
    && (forall g :: g in s.armed ==> 1 <= g <= s.gen)
  }

  ghost predicate Inv(s: State) {
    && GuardOk(s) && IssuedOk(s)
    && (forall id :: id in s.sweeps ==> SweepOk(s, s.sweeps[id]))
    && (forall l :: l in s.loads ==> LoadOk(s, l))
    && (s.timedOut != 0 ==> exists l :: l in s.loads && l.gen == s.timedOut)
  }

  lemma {:induction false} LoadsKept(s: State, s': State)
    requires Inv(s) && s'.gen >= s.gen && s'.clock >= s.clock && s'.loads == s.loads && s'.timedOut == s.timedOut
    requires forall g :: g in s.armed ==> g in s'.armed && s'.armed[g] == s.armed[g]
    ensures forall l :: l in s'.loads ==> LoadOk(s', l)
    ensures forall id :: id in s.sweeps ==> SweepOk(s', s.sweeps[id])
  {
    forall id | id in s.sweeps ensures SweepOk(s', s.sweeps[id]) {
      assert SweepOk(s, s.sweeps[id]);
    }
  }

  lemma StepKeeps(s: State, a: Action)
    requires Inv(s) && Enabled(s, a)
    ensures Inv(Next(s, a))
  {
    var s' := Next(s, a);
    match a
    case ReadFlight(id) => ReadFlightKeeps(s, id);
    case ReadDeadline(id) => ReadDeadlineKeeps(s, id);
    case ReadGeneration(id) => ReadGenerationKeeps(s, id);
    case WriteTimedOut(id) => WriteKeeps(s, id);
    case _ => LoadsKept(s, s');
  }

  lemma WriteKeeps(s: State, id: nat)
    requires Inv(s) && Enabled(s, WriteTimedOut(id))
    ensures Inv(Next(s, WriteTimedOut(id)))
  {
    assert SweepOk(s, s.sweeps[id]);
    assert s.sweeps[id].load in s.loads;
  }

  lemma ReadFlightKeeps(s: State, id: nat)
    requires Inv(s) && Enabled(s, ReadFlight(id))
    ensures Inv(Next(s, ReadFlight(id)))
  {
    assert SweepOk(s, s.sweeps[id]);
    LoadsKept(s, Next(s, ReadFlight(id)));
  }

  lemma {:induction false} ReadDeadlineKeeps(s: State, id: nat)
    requires Inv(s) && Enabled(s, ReadDeadline(id))
    ensures Inv(Next(s, ReadDeadline(id)))
  {
    assert SweepOk(s, s.sweeps[id]);
    LoadsKept(s, Next(s, ReadDeadline(id)));
  }

  lemma ReadGenerationKeeps(s: State, id: nat)
    requires Inv(s) && Enabled(s, ReadGeneration(id))
    ensures Inv(Next(s, ReadGeneration(id)))
  {
    var s' := Next(s, ReadGeneration(id));
    assert SweepOk(s, s.sweeps[id]);
    forall other | other in s'.sweeps ensures SweepOk(s', s'.sweeps[other]) {
      if other != id { assert SweepOk(s, s.sweeps[other]); }
    }
    if s.timedOut != 0 {
      var l :| l in s.loads && l.gen == s.timedOut;
      assert l in s'.loads;
    }
  }

  predicate CanRun(s: State, actions: seq<Action>)
    decreases |actions|
  {
    actions == [] || (Enabled(s, actions[0]) && CanRun(Next(s, actions[0]), actions[1..]))
  }

  function RunAll(s: State, actions: seq<Action>): State
    requires CanRun(s, actions)
    decreases |actions|
  {
    if actions == [] then s else RunAll(Next(s, actions[0]), actions[1..])
  }

  lemma {:induction false} RunKeeps(s: State, actions: seq<Action>)
    requires CanRun(s, actions) && Inv(s)
    ensures Inv(RunAll(s, actions))
    decreases |actions|
  {
    if actions != [] {
      StepKeeps(s, actions[0]);
      RunKeeps(Next(s, actions[0]), actions[1..]);
    }
  }

  /**
   The guard's invariants, at the granularity of single atomics: `timed_out_generation` never
   runs ahead, generations are not reused, and while the session lock is free no query is in
   flight and no deadline is armed.
   */
  lemma GuardInvariants(actions: seq<Action>)
    requires CanRun(INITIAL, actions)
    ensures var s := RunAll(INITIAL, actions);
            s.timedOut <= s.gen && |s.issued| == s.gen && (forall i :: 0 <= i < |s.issued| ==> s.issued[i] == i + 1)
            && (s.phase.Free? ==> !s.inFlight && s.deadline == 0)
  {
    RunKeeps(INITIAL, actions);
  }

  /** The guard's own deadline is nonzero and has passed. */
  predicate OwnDeadlinePassed(s: State) { s.mine in s.armed && s.armed[s.mine] != 0 && s.armed[s.mine] < s.clock }

  /** No guard before the current one has armed a deadline. */
  predicate NoEarlierDeadline(s: State) { forall g :: g in s.armed && g < s.mine ==> s.armed[g] == 0 }

  /**
   A guard reports TIMEOUT only if some sweep loaded that guard's own generation after it had
   found an expired nonzero deadline, which this guard or an earlier one had armed. So the report
   is right, that is the guard's own deadline has passed, if no earlier guard armed one.
   */
  lemma TimeoutHasCause(actions: seq<Action>)
    requires CanRun(INITIAL, actions)
    ensures var s := RunAll(INITIAL, actions);
            HasGuard(s) && s.timedOut == s.mine ==>
              (exists l: Load :: l in s.loads && l.gen == s.mine && l.deadline != 0 && l.deadline < l.now <= s.clock
                 && l.armedBy <= s.mine && l.armedBy in s.armed && s.armed[l.armedBy] == l.deadline)
              && (NoEarlierDeadline(s) ==> OwnDeadlinePassed(s))
  {
    RunKeeps(INITIAL, actions);
    var s := RunAll(INITIAL, actions);
    if HasGuard(s) && s.timedOut == s.mine {
      var l :| l in s.loads && l.gen == s.timedOut;
      assert LoadOk(s, l);
    }
  }

  // ---- what fine interleavings break ----

  lemma {:induction false} RunConcat(s: State, a: seq<Action>, b: seq<Action>)
    requires CanRun(s, a) && CanRun(RunAll(s, a), b)
    ensures CanRun(s, a + b) && RunAll(s, a + b) == RunAll(RunAll(s, a), b)
    decreases |a|
  {
    if a == [] {
      assert a + b == b;
    } else {
      assert (a + b)[1..] == a[1..] + b;
      RunConcat(Next(s, a[0]), a[1..], b);
    }
  }

  lemma RunCons(s: State, a: Action, rest: seq<Action>)
    requires Enabled(s, a) && CanRun(Next(s, a), rest)
    ensures CanRun(s, [a] + rest) && RunAll(s, [a] + rest) == RunAll(Next(s, a), rest)
  {
    assert ([a] + rest)[1..] == rest;
  }

  lemma RunThree(s: State, a: Action, b: Action, c: Action) returns (end: State)
    requires Enabled(s, a) && Enabled(Next(s, a), b) && Enabled(Next(Next(s, a), b), c)
    ensures CanRun(s, [a, b, c]) && end == RunAll(s, [a, b, c]) == Next(Next(Next(s, a), b), c)
  {
    var s1, s2 := Next(s, a), Next(Next(s, a), b);
    end := Next(s2, c);
    assert CanRun(end, []) && RunAll(end, []) == end;
    RunCons(s2, c, []);
    RunCons(s1, b, [c] + []);
    RunCons(s, a, [b] + ([c] + []));
    assert [a, b, c] == [a] + ([b] + ([c] + []));
  }

  function BeginQuery(timeoutSeconds: nat): seq<Action> {
    [Acquire, Bump, ResetCause] + [Arm(timeoutSeconds), Fly, Execute]
  }

  const END_QUERY: seq<Action> := [Unarm, Land, Release]

  lemma BeginQueryRuns(s: State, timeout: nat) returns (end: State)
    requires s.phase.Free?
    ensures CanRun(s, BeginQuery(timeout)) && end == RunAll(s, BeginQuery(timeout))
    ensures var d := DeadlineAfter(timeout, s.clock);
            end == s.(phase := Live, gen := s.gen + 1, mine := s.gen + 1, issued := s.issued + [s.gen + 1], executing := true,
                      cause := NoCause, deadline := d, armed := s.armed[s.gen + 1 := d], inFlight := true, interrupted := false)
  {
    var mid := RunThree(s, Acquire, Bump, ResetCause);
    end := RunThree(mid, Arm(timeout), Fly, Execute);
    RunConcat(s, [Acquire, Bump, ResetCause], [Arm(timeout), Fly, Execute]);
  }

  lemma EndQueryRuns(s: State) returns (end: State)
    requires s.phase.Live?
    ensures CanRun(s, END_QUERY) && end == RunAll(s, END_QUERY) == s.(phase := Free, deadline := 0, inFlight := false)
  {
    end := RunThree(s, Unarm, Land, Release);
  }

  lemma ThenOne(s: State, before: seq<Action>, a: Action) returns (end: State)
    requires CanRun(s, before) && Enabled(RunAll(s, before), a)
    ensures CanRun(s, before + [a]) && end == RunAll(s, before + [a]) == Next(RunAll(s, before), a)
  {
    end := Next(RunAll(s, before), a);
    assert CanRun(end, []) && RunAll(end, []) == end;
    RunCons(RunAll(s, before), a, []);
    assert [a] + [] == [a];
    RunConcat(s, before, [a]);
  }

  /** A query with a timeout of `t` seconds, with a sweep under way when that is over. */
  function OverdueQuery(t: nat): seq<Action> { BeginQuery(t) + [Tick(1000 * t + 1), SweepStart(0), ReadFlight(0)] }

  lemma OverdueRuns(s: State, t: nat) returns (end: State)
    requires s.phase.Free? && 0 !in s.sweeps && t > 0
    ensures CanRun(s, OverdueQuery(t)) && end == RunAll(s, OverdueQuery(t))
    ensures end.phase.Live? && end.gen == end.mine == s.gen + 1 && end.timedOut == s.timedOut && end.cancels == s.cancels
    ensures end.deadline == s.clock + 1000 * t < end.clock && end.sweeps == s.sweeps[0 := SawFlight(end.clock)]
  {
    var live := BeginQueryRuns(s, t);
    end := RunThree(live, Tick(1000 * t + 1), SweepStart(0), ReadFlight(0));
    RunConcat(s, BeginQuery(t), [Tick(1000 * t + 1), SweepStart(0), ReadFlight(0)]);
    assert s.sweeps[0 := Started(end.clock)][0 := SawFlight(end.clock)] == s.sweeps[0 := SawFlight(end.clock)];
  }

  /** Queries with these timeouts, one after the other, that nobody sweeps. */
  function Quiet(ts: seq<nat>): seq<Action> {
    if ts == [] then [] else BeginQuery(ts[0]) + END_QUERY + Quiet(ts[1..])
  }

  lemma {:induction false} QuietRuns(s: State, ts: seq<nat>) returns (end: State)
    requires s.phase.Free?
    ensures CanRun(s, Quiet(ts)) && end == RunAll(s, Quiet(ts))
    ensures end.phase.Free? && end.gen == s.gen + |ts| && end.timedOut == s.timedOut && end.clock == s.clock
    ensures end.sweeps == s.sweeps && end.cancels == s.cancels
    decreases |ts|
  {
    if ts == [] {
      end := s;
    } else {
      var live := BeginQueryRuns(s, ts[0]);
      var free := EndQueryRuns(live);
      RunConcat(s, BeginQuery(ts[0]), END_QUERY);
      end := QuietRuns(free, ts[1..]);
      RunConcat(s, BeginQuery(ts[0]) + END_QUERY, Quiet(ts[1..]));
    }
  }

  /** From a running query to a later one, with only quiet ones between. */
  lemma ThroughQueries(s: State, past: seq<Action>, between: seq<nat>, u: nat) returns (next: State)
    requires CanRun(s, past) && RunAll(s, past).phase.Live?
    ensures var run := past + END_QUERY + Quiet(between) + BeginQuery(u);
            CanRun(s, run) && next == RunAll(s, run)
    ensures var live, d := RunAll(s, past), DeadlineAfter(u, RunAll(s, past).clock);
            next.phase.Live? && next.gen == next.mine == live.gen + |between| + 1 && next.executing && !next.interrupted
            && next.cause == NoCause && next.mine in next.armed && next.armed[next.mine] == d
            && next.sweeps == live.sweeps && next.timedOut == live.timedOut && next.clock == live.clock
  {
    var done := EndQueryRuns(RunAll(s, past));
    RunConcat(s, past, END_QUERY);
    var free := QuietRuns(done, between);
    RunConcat(s, past + END_QUERY, Quiet(between));
    next := BeginQueryRuns(free, u);
    RunConcat(s, past + END_QUERY + Quiet(between), BeginQuery(u));
  }

  /** The rest of a sweep that has read its deadline. */
  const MARK: seq<Action> := [ReadGeneration(0), WriteTimedOut(0), SweepInterrupt(0)]

  function StaleMark(t: nat, between: seq<nat>, u: nat): seq<Action> {
    OverdueQuery(t) + [ReadDeadline(0)] + END_QUERY + Quiet(between) + BeginQuery(u) + MARK
  }

  /**
   The first trace, from any moment at which the session is free: a sweep reads the expired
   deadline of one query and the generation of a later one. Whatever the later one's timeout, it
   is reported as TIMEOUT although its own deadline, if it has one, is ahead.
   */
  lemma StaleSweepMarksNextQuery(s: State, t: nat, between: seq<nat>, u: nat) returns (end: State)
    requires s.phase.Free? && 0 !in s.sweeps && t > 0
    ensures CanRun(s, StaleMark(t, between, u)) && end == RunAll(s, StaleMark(t, between, u))
    ensures HasGuard(end) && end.executing && end.interrupted && end.mine == s.gen + |between| + 2
    ensures end.timedOut == end.mine && GuardCause(end) == Timeout && !OwnDeadlinePassed(end)
  {
    var overdue := OverdueRuns(s, t);
    var seen := ThenOne(s, OverdueQuery(t), ReadDeadline(0));
    var next := ThroughQueries(s, OverdueQuery(t) + [ReadDeadline(0)], between, u);
    end := RunThree(next, ReadGeneration(0), WriteTimedOut(0), SweepInterrupt(0));
    RunConcat(s, OverdueQuery(t) + [ReadDeadline(0)] + END_QUERY + Quiet(between) + BeginQuery(u), MARK);
  }

  function StaleInterrupt(t: nat, between: seq<nat>, u: nat): seq<Action> {
    OverdueQuery(t) + [ReadDeadline(0), ReadGeneration(0), WriteTimedOut(0)] + END_QUERY + Quiet(between) + BeginQuery(u)
    + [SweepInterrupt(0)]
  }

  /**
   The second trace: a sweep marks the overdue query, and its Interrupt comes only when a later
   one is running. That one is cut short, and its guard knows no cause.
   */
  lemma StaleInterruptHitsNextQuery(s: State, t: nat, between: seq<nat>, u: nat) returns (end: State)
    requires s.phase.Free? && 0 !in s.sweeps && t > 0
    ensures CanRun(s, StaleInterrupt(t, between, u)) && end == RunAll(s, StaleInterrupt(t, between, u))
    ensures HasGuard(end) && end.executing && end.interrupted && end.mine == s.gen + |between| + 2
    ensures GuardCause(end) == NoCause
  {
    var overdue := OverdueRuns(s, t);
    var marks := [ReadDeadline(0), ReadGeneration(0), WriteTimedOut(0)];
    var marked := RunThree(overdue, ReadDeadline(0), ReadGeneration(0), WriteTimedOut(0));
    RunConcat(s, OverdueQuery(t), marks);
    var next := ThroughQueries(s, OverdueQuery(t) + marks, between, u);
    end := ThenOne(s, OverdueQuery(t) + marks + END_QUERY + Quiet(between) + BeginQuery(u), SweepInterrupt(0));
  }

  function TornCancel(u: nat): seq<Action> {
    [Acquire, Bump, StoreCause(0, UserCancel)] + [ResetCause, Arm(u), Fly] + [Execute] + [CancelInterrupt(0)]
  }

  /**
   The third trace: an InterruptSession stores its cause before a guard's constructor resets it,
   and interrupts the query that then executes. Its guard knows no cause.
   */
  lemma TornCancelHitsQuery(s: State, u: nat) returns (end: State)
    requires s.phase.Free? && 0 !in s.cancels && s.timedOut <= s.gen
    ensures CanRun(s, TornCancel(u)) && end == RunAll(s, TornCancel(u))
    ensures HasGuard(end) && end.executing && end.interrupted && end.mine == s.gen + 1 && GuardCause(end) == NoCause
  {
    var stored := RunThree(s, Acquire, Bump, StoreCause(0, UserCancel));
    var live := RunThree(stored, ResetCause, Arm(u), Fly);
    RunConcat(s, [Acquire, Bump, StoreCause(0, UserCancel)], [ResetCause, Arm(u), Fly]);
    var executing := ThenOne(s, [Acquire, Bump, StoreCause(0, UserCancel)] + [ResetCause, Arm(u), Fly], Execute);
    end := ThenOne(s, [Acquire, Bump, StoreCause(0, UserCancel)] + [ResetCause, Arm(u), Fly] + [Execute], CancelInterrupt(0));
  }

  // ---- exactly when a verdict can be wrong ----

  /** The timeouts of the guards a run constructs, in order. */
  function Timeouts(actions: seq<Action>): seq<nat> {
    if actions == [] then []
    else (if actions[0].Arm? then [actions[0].timeoutSeconds] else []) + Timeouts(actions[1..])
  }

  lemma Associate<A>(a: seq<A>, b: seq<A>, c: seq<A>)
    ensures a + (b + c) == (a + b) + c
  {
  }

  lemma {:induction false} TimeoutsConcat(a: seq<Action>, b: seq<Action>)
    ensures Timeouts(a + b) == Timeouts(a) + Timeouts(b)
    decreases |a|
  {
    if a == [] {
      assert a + b == b && [] + Timeouts(b) == Timeouts(b);
    } else {
      var rest := a[1..];
      assert (a + b)[1..] == rest + b && (a + b)[0] == a[0];
      TimeoutsConcat(rest, b);
      Associate(if a[0].Arm? then [a[0].timeoutSeconds] else [], Timeouts(rest), Timeouts(b));
    }
  }

  lemma NoTimeouts(actions: seq<Action>)
    requires forall a :: a in actions ==> !a.Arm?
    ensures Timeouts(actions) == []
    decreases |actions|
  {
    if actions != [] { NoTimeouts(actions[1..]); }
  }

  lemma QueryTimeouts(t: nat)
    ensures Timeouts(BeginQuery(t)) == [t]
  {
    TimeoutsConcat([Acquire, Bump, ResetCause], [Arm(t), Fly, Execute]);
    NoTimeouts([Acquire, Bump, ResetCause]);
    NoTimeouts([Fly, Execute]);
    assert [Arm(t), Fly, Execute][1..] == [Fly, Execute];
  }

  lemma {:induction false} QuietTimeouts(ts: seq<nat>)
    ensures Timeouts(Quiet(ts)) == ts
    decreases |ts|
  {
    if ts != [] {
      QueryTimeouts(ts[0]);
      NoTimeouts(END_QUERY);
      QuietTimeouts(ts[1..]);
      TimeoutsConcat(BeginQuery(ts[0]) + END_QUERY, Quiet(ts[1..]));
      TimeoutsConcat(BeginQuery(ts[0]), END_QUERY);
    }
  }

  /** The deadlines a state has seen armed are those of the timeouts `ts`. */
  ghost predicate ArmedAs(s: State, ts: seq<nat>) {
    && |ts| == (if s.phase.Bumped? || s.phase.CauseReset? then s.gen - 1 else s.gen)
    && (forall g :: g in s.armed <==> 1 <= g <= |ts|)
    && (forall g :: 1 <= g <= |ts| ==> (s.armed[g] != 0 <==> ts[g - 1] > 0))
  }

  lemma ArmedStep(s: State, a: Action, ts: seq<nat>)
    requires Inv(s) && Enabled(s, a) && ArmedAs(s, ts)
    ensures ArmedAs(Next(s, a), if a.Arm? then ts + [a.timeoutSeconds] else ts)
  {
  }

  /** The timeouts up to and including `a`, and those behind it. */
  lemma TimeoutsMove(ts: seq<nat>, actions: seq<Action>) returns (ts': seq<nat>)
    requires actions != []
    ensures ts' == (if actions[0].Arm? then ts + [actions[0].timeoutSeconds] else ts)
    ensures ts' + Timeouts(actions[1..]) == ts + Timeouts(actions)
  {
    var a := actions[0];
    ts' := if a.Arm? then ts + [a.timeoutSeconds] else ts;
    var rest := Timeouts(actions[1..]);
    if a.Arm? { Associate(ts, [a.timeoutSeconds], rest); } else { assert [] + rest == rest; }
  }

  lemma {:induction false} RunArmed(s: State, actions: seq<Action>, ts: seq<nat>)
    requires CanRun(s, actions) && Inv(s) && ArmedAs(s, ts)
    ensures ArmedAs(RunAll(s, actions), ts + Timeouts(actions))
    decreases |actions|
  {
    if actions == [] {
      assert ts + [] == ts;
    } else {
      ArmedStep(s, actions[0], ts);
      StepKeeps(s, actions[0]);
      var ts' := TimeoutsMove(ts, actions);
      RunArmed(Next(s, actions[0]), actions[1..], ts');
    }
  }

  /** Some query before the last was given a timeout. */
  predicate EarlierTimeout(ts: seq<nat>) { exists j :: 0 <= j < |ts| - 1 && ts[j] > 0 }

  /** A run whose guards get the timeouts `ts`, up to a wrong TIMEOUT verdict of the last of them. */
  ghost predicate Misreports(actions: seq<Action>, ts: seq<nat>) {
    && CanRun(INITIAL, actions) && Timeouts(actions) == ts
    && var s := RunAll(INITIAL, actions);
       HasGuard(s) && s.mine == |ts| && s.timedOut == s.mine && !OwnDeadlinePassed(s)
  }

  /** The trace through query `j` of the queries `ts`. */
  lemma SplitQueries(ts: seq<nat>, j: nat) returns (before: seq<nat>, t: nat, between: seq<nat>, u: nat)
    requires j < |ts| - 1
    ensures t == ts[j] && ts == before + [t] + between + [u] && |before| == j
  {
    before, t, between, u := ts[..j], ts[j], ts[j + 1..|ts| - 1], ts[|ts| - 1];
  }

  lemma StaleTimeouts(t: nat, between: seq<nat>, u: nat)
    ensures Timeouts(StaleMark(t, between, u)) == [t] + between + [u]
    ensures Timeouts(StaleInterrupt(t, between, u)) == [t] + between + [u]
  {
    var marks := [ReadDeadline(0), ReadGeneration(0), WriteTimedOut(0)];
    OneOverdue(t, [ReadDeadline(0)], between, u, MARK);
    OneOverdue(t, marks, between, u, [SweepInterrupt(0)]);
  }

  lemma OneOverdue(t: nat, seen: seq<Action>, between: seq<nat>, u: nat, last: seq<Action>)
    requires (forall a :: a in seen ==> !a.Arm?) && (forall a :: a in last ==> !a.Arm?)
    ensures Timeouts(OverdueQuery(t) + seen + END_QUERY + Quiet(between) + BeginQuery(u) + last) == [t] + between + [u]
  {
    var sweep := [Tick(1000 * t + 1), SweepStart(0), ReadFlight(0)];
    QueryTimeouts(t);
    ThenNone(BeginQuery(t), sweep);
    ThenNone(OverdueQuery(t), seen);
    ThenNone(OverdueQuery(t) + seen, END_QUERY);
    var head := OverdueQuery(t) + seen + END_QUERY;
    assert Timeouts(head) == [t];
    QuietTimeouts(between);
    TimeoutsConcat(head, Quiet(between));
    QueryTimeouts(u);
    TimeoutsConcat(head + Quiet(between), BeginQuery(u));
    ThenNone(head + Quiet(between) + BeginQuery(u), last);
  }

  lemma ThenNone(a: seq<Action>, b: seq<Action>)
    requires forall x :: x in b ==> !x.Arm?
    ensures Timeouts(a + b) == Timeouts(a)
  {
    NoTimeouts(b);
    TimeoutsConcat(a, b);
    assert Timeouts(a) + [] == Timeouts(a);
  }

  lemma MisreportExists(ts: seq<nat>, j: nat) returns (actions: seq<Action>)
    requires j < |ts| - 1 && ts[j] > 0
    ensures Misreports(actions, ts)
  {
    var before, t, between, u := SplitQueries(ts, j);
    var free := QuietRuns(INITIAL, before);
    var end := StaleSweepMarksNextQuery(free, t, between, u);
    actions := Quiet(before) + StaleMark(t, between, u);
    RunConcat(INITIAL, Quiet(before), StaleMark(t, between, u));
    QuietTimeouts(before);
    StaleTimeouts(t, between, u);
    TimeoutsConcat(Quiet(before), StaleMark(t, between, u));
    assert before + ([t] + between + [u]) == ts;
  }

  /**
   The exact condition: a query of a session can be reported as TIMEOUT although its own deadline
   has not passed, or is none, if and only if an earlier query of the session had a timeout.
   */
  lemma MisreportIff(ts: seq<nat>)
    ensures (exists actions :: Misreports(actions, ts)) <==> EarlierTimeout(ts)
  {
    if actions :| Misreports(actions, ts) {
      TimeoutHasCause(actions);
      RunKeeps(INITIAL, actions);
      RunArmed(INITIAL, actions, []);
      assert [] + Timeouts(actions) == ts;
      var s := RunAll(INITIAL, actions);
      var g :| g in s.armed && g < s.mine && s.armed[g] != 0;
      assert ts[g - 1] > 0;
    }
    if EarlierTimeout(ts) {
      var j :| 0 <= j < |ts| - 1 && ts[j] > 0;
      var actions := MisreportExists(ts, j);
    }
  }

  /** No InterruptSession reaches the session. */
  predicate NoCancel(actions: seq<Action>) { forall a :: a in actions ==> !a.StoreCause? }

  /**
   A run whose guards get the timeouts `ts`, with cancellations or without, up to a query that
   is interrupted while it executes and whose guard knows no cause.
   */
  ghost predicate Unexplains(actions: seq<Action>, ts: seq<nat>, cancelled: bool) {
    && CanRun(INITIAL, actions) && Timeouts(actions) == ts && (cancelled || NoCancel(actions))
    && Unexplained(RunAll(INITIAL, actions)) && RunAll(INITIAL, actions).mine == |ts|
  }

  predicate Unexplained(s: State) { HasGuard(s) && s.executing && s.interrupted && GuardCause(s) == NoCause }

  /** With no cancellation and no deadline before guard `k`: every mark and every interrupt is for `k` or a later one. */
  ghost predicate MarksFrom(s: State, k: nat) {
    && s.cancels == {} && s.cause == NoCause && (s.timedOut == 0 || s.timedOut >= k)
    && (forall l :: l in s.loads ==> l.gen >= k)
    && (forall id :: id in s.sweeps && s.sweeps[id].Marked? ==> s.timedOut >= k)
    && (s.interrupted ==> s.timedOut >= k)
  }

  lemma MarksStep(s: State, a: Action, k: nat)
    requires Inv(s) && Enabled(s, a) && !a.StoreCause? && k >= 1 && MarksFrom(s, k)
    requires forall g :: g in s.armed && g < k ==> s.armed[g] == 0
    ensures MarksFrom(Next(s, a), k)
  {
    if a.ReadGeneration? || a.WriteTimedOut? { assert SweepOk(s, s.sweeps[a.id]); }
  }

  lemma {:induction false} RunMarks(s: State, actions: seq<Action>, ts: seq<nat>, k: nat)
    requires CanRun(s, actions) && NoCancel(actions) && Inv(s) && ArmedAs(s, ts) && k >= 1 && MarksFrom(s, k)
    requires forall j :: 0 <= j < k - 1 && j < |ts + Timeouts(actions)| ==> (ts + Timeouts(actions))[j] == 0
    ensures MarksFrom(RunAll(s, actions), k) && Inv(RunAll(s, actions))
    decreases |actions|
  {
    if actions != [] {
      var a := actions[0];
      var ts' := TimeoutsMove(ts, actions);
      forall g | g in s.armed && g < k ensures s.armed[g] == 0 { assert (ts + Timeouts(actions))[g - 1] == ts[g - 1]; }
      ArmedStep(s, a, ts);
      StepKeeps(s, a);
      MarksStep(s, a, k);
      RunMarks(Next(s, a), actions[1..], ts', k);
    }
  }

  lemma UnexplainedExists(ts: seq<nat>, cancelled: bool) returns (actions: seq<Action>)
    requires ts != [] && (cancelled || EarlierTimeout(ts))
    ensures Unexplains(actions, ts, cancelled)
  {
    if EarlierTimeout(ts) {
      var j :| 0 <= j < |ts| - 1 && ts[j] > 0;
      actions := StaleInterruptExists(ts, j);
    } else {
      actions := TornCancelExists(ts);
    }
  }

  lemma StaleInterruptExists(ts: seq<nat>, j: nat) returns (actions: seq<Action>)
    requires j < |ts| - 1 && ts[j] > 0
    ensures Unexplains(actions, ts, false)
  {
    var before, t, between, u := SplitQueries(ts, j);
    var free := QuietRuns(INITIAL, before);
    var end := StaleInterruptHitsNextQuery(free, t, between, u);
    actions := Quiet(before) + StaleInterrupt(t, between, u);
    RunConcat(INITIAL, Quiet(before), StaleInterrupt(t, between, u));
    QuietTimeouts(before);
    StaleTimeouts(t, between, u);
    TimeoutsConcat(Quiet(before), StaleInterrupt(t, between, u));
    assert before + ([t] + between + [u]) == ts;
    NoCancelQuiet(before);
    NoCancelQuiet(between);
  }

  lemma {:induction false} NoCancelQuiet(ts: seq<nat>)
    ensures NoCancel(Quiet(ts))
    decreases |ts|
  {
    if ts != [] { NoCancelQuiet(ts[1..]); }
  }

  lemma TornCancelExists(ts: seq<nat>) returns (actions: seq<Action>)
    requires ts != []
    ensures Unexplains(actions, ts, true)
  {
    var before, u := ts[..|ts| - 1], ts[|ts| - 1];
    var free := QuietRuns(INITIAL, before);
    var end := TornCancelHitsQuery(free, u);
    actions := Quiet(before) + TornCancel(u);
    RunConcat(INITIAL, Quiet(before), TornCancel(u));
    QuietTimeouts(before);
    TornTimeouts(u);
    TimeoutsConcat(Quiet(before), TornCancel(u));
    assert before + [u] == ts;
  }

  lemma TornTimeouts(u: nat)
    ensures Timeouts(TornCancel(u)) == [u]
  {
    var store: seq<Action> := [Acquire, Bump, StoreCause(0, UserCancel)];
    var arm := [ResetCause, Arm(u), Fly];
    NoTimeouts(store);
    NoTimeouts([Fly]);
    NoTimeouts([Execute]);
    NoTimeouts([CancelInterrupt(0)]);
    assert arm[1..] == [Arm(u), Fly] && [Arm(u), Fly][1..] == [Fly];
    assert Timeouts([Arm(u), Fly]) == [u];
    assert Timeouts(arm) == [u];
    TimeoutsConcat(store, arm);
    TimeoutsConcat(store + arm, [Execute]);
    TimeoutsConcat(store + arm + [Execute], [CancelInterrupt(0)]);
  }

  /**
   The exact condition: a query can be interrupted while its guard knows no cause if and only if
   the session is cancelled at some time, or an earlier query of the session had a timeout.
   */
  lemma UnexplainedIff(ts: seq<nat>, cancelled: bool)
    requires ts != []
    ensures (exists actions :: Unexplains(actions, ts, cancelled)) <==> cancelled || EarlierTimeout(ts)
  {
    if actions :| Unexplains(actions, ts, cancelled) {
      if !cancelled && !EarlierTimeout(ts) {
        assert [] + Timeouts(actions) == ts;
        RunMarks(INITIAL, actions, [], |ts|);
        GuardInvariants(actions);
      }
    }
    if cancelled || EarlierTimeout(ts) {
      var actions := UnexplainedExists(ts, cancelled);
    }
  }

  // ---- the cause of a cancellation ----

  /** The same query goes on: no other guard is constructed, and nobody stores another cause. */
  predicate SameQuery(actions: seq<Action>) {
    forall a :: a in actions ==> !a.Bump? && !a.ResetCause? && !a.StoreCause?
  }

  /**
   A cancellation that arrives behind the constructor is reported with its own cause: whatever
   sweeps and other steps follow, the guard answers that cause, or TIMEOUT if a sweep has marked
   the guard's generation.
   */
  lemma {:induction false} CancelIsReported(s: State, id: nat, cause: Cause, later: seq<Action>)
    requires Enabled(s, StoreCause(id, cause)) && CanRun(Next(s, StoreCause(id, cause)), later) && SameQuery(later)
    ensures var end := RunAll(Next(s, StoreCause(id, cause)), later);
            end.mine == s.mine && GuardCause(end) == if end.timedOut == s.mine then Timeout else cause
  {
    CauseStays(Next(s, StoreCause(id, cause)), later);
  }

  lemma {:induction false} CauseStays(s: State, actions: seq<Action>)
    requires CanRun(s, actions) && SameQuery(actions)
    ensures RunAll(s, actions).cause == s.cause && RunAll(s, actions).mine == s.mine
    decreases |actions|
  {
    if actions != [] {
      assert actions[0] in actions;
      CauseStays(Next(s, actions[0]), actions[1..]);
    }
  }

  /** So a guard object whose session is cancelled by a user, and not timed out, answers UserCancel. */
  lemma UserCancelIsReported(g: QueryExecutionGuard, s: State, id: nat, later: seq<Action>)
    requires Enabled(s, StoreCause(id, UserCancel)) && CanRun(Next(s, StoreCause(id, UserCancel)), later) && SameQuery(later)
    requires g.session != null && Shows(RunAll(Next(s, StoreCause(id, UserCancel)), later), g.session) && g.myGeneration == s.mine
    ensures g.session.timedOutGeneration != g.myGeneration ==> g.Cause() == UserCancel
    ensures g.session.timedOutGeneration == g.myGeneration ==> g.Cause() == Timeout
  {
    CancelIsReported(s, id, UserCancel, later);
    CauseIsVerdict(g, RunAll(Next(s, StoreCause(id, UserCancel)), later));
  }

  // ---- sweeps and cancellations as one step each ----

  /** A run in which the reads and writes of a sweep of this session, and those of an InterruptSession, are not separated. */
  datatype Coarse = Plain(a: Action) | SweepBody(id: nat) | InterruptBody(id: nat, cause: Cause)

  predicate IsPlain(a: Action) {
    a.Tick? || a.Acquire? || a.Bump? || a.ResetCause? || a.Arm? || a.Fly? || a.Execute? || a.Unarm? || a.Land? || a.Release?
    || a.SweepStart?
  }

  predicate Overdue(s: State, now: int) { s.inFlight && s.deadline != 0 && now > s.deadline }

  /** The single steps a coarse one stands for. */
  function Expand(s: State, c: Coarse): seq<Action>
    requires CoarseEnabled(s, c)
  {
    match c
    case Plain(a) => [a]
    case SweepBody(id) =>
      if !s.inFlight then [ReadFlight(id)]
      else if !Overdue(s, s.sweeps[id].now) then [ReadFlight(id), ReadDeadline(id)]
      else [ReadFlight(id), ReadDeadline(id), ReadGeneration(id)] + [WriteTimedOut(id), SweepInterrupt(id)]
    case InterruptBody(id, cause) => [StoreCause(id, cause), CancelInterrupt(id)]
  }

  predicate CoarseEnabled(s: State, c: Coarse) {
    match c
    case Plain(a) => IsPlain(a) && Enabled(s, a)
    case SweepBody(id) => id in s.sweeps && s.sweeps[id].Started?
    case InterruptBody(id, cause) => Enabled(s, StoreCause(id, cause))
  }

  /** What a coarse step does, said at once. */
  function CoarseNext(s: State, c: Coarse): State
    requires CoarseEnabled(s, c)
  {
    match c
    case Plain(a) => Next(s, a)
    case SweepBody(id) =>
      var now := s.sweeps[id].now;
      if !Overdue(s, now) then EndSweep(s, id)
      else EndSweep(s, id).(timedOut := s.gen, interrupted := true, loads := s.loads + {Load(s.gen, now, s.deadline, s.mine)})
    case InterruptBody(id, cause) => s.(cause := cause, interrupted := true)
  }

  lemma RunTwo(s: State, a: Action, b: Action)
    requires Enabled(s, a) && Enabled(Next(s, a), b)
    ensures CanRun(s, [a, b]) && RunAll(s, [a, b]) == Next(Next(s, a), b)
  {
    var end := ThenOne(s, [], a);
    assert [] + [a] == [a];
    end := ThenOne(s, [a], b);
    assert [a] + [b] == [a, b];
  }

  lemma RunOne(s: State, a: Action)
    requires Enabled(s, a)
    ensures CanRun(s, [a]) && RunAll(s, [a]) == Next(s, a)
  {
    var end := ThenOne(s, [], a);
    assert [] + [a] == [a];
  }

  /** A coarse step is a run of the fine machine. */
  lemma CoarseIsFine(s: State, c: Coarse)
    requires CoarseEnabled(s, c)
    ensures CanRun(s, Expand(s, c)) && RunAll(s, Expand(s, c)) == CoarseNext(s, c)
  {
    match c
    case Plain(a) => RunOne(s, a);
    case InterruptBody(id, cause) =>
      RunTwo(s, StoreCause(id, cause), CancelInterrupt(id));
      assert s.cancels + {id} - {id} == s.cancels;
    case SweepBody(id) =>
      if !s.inFlight {
        RunOne(s, ReadFlight(id));
      } else if !Overdue(s, s.sweeps[id].now) {
        RunTwo(s, ReadFlight(id), ReadDeadline(id));
        assert s.sweeps[id := SawFlight(s.sweeps[id].now)] - {id} == s.sweeps - {id};
      } else {
        SweepRuns(s, id);
      }
  }

  lemma SweepRuns(s: State, id: nat)
    requires id in s.sweeps && s.sweeps[id].Started? && Overdue(s, s.sweeps[id].now)
    ensures CanRun(s, Expand(s, SweepBody(id))) && RunAll(s, Expand(s, SweepBody(id))) == CoarseNext(s, SweepBody(id))
  {
    var loaded := RunThree(s, ReadFlight(id), ReadDeadline(id), ReadGeneration(id));
    RunTwo(loaded, WriteTimedOut(id), SweepInterrupt(id));
    RunConcat(s, [ReadFlight(id), ReadDeadline(id), ReadGeneration(id)], [WriteTimedOut(id), SweepInterrupt(id)]);
    var end := CoarseNext(s, SweepBody(id));
    assert RunAll(loaded, [WriteTimedOut(id), SweepInterrupt(id)]).sweeps == end.sweeps;
  }

  /** Between coarse steps a verdict of TIMEOUT is right, and an interrupted query has a cause. */
  ghost predicate CoarseInv(s: State) {
    && GuardOk(s) && IssuedOk(s)
    && (forall id :: id in s.sweeps ==> s.sweeps[id].Started? && s.sweeps[id].now <= s.clock)
    && s.timedOut <= s.gen && s.cause != Timeout
    && (s.timedOut != 0 ==> s.timedOut in s.armed && s.armed[s.timedOut] != 0 && s.armed[s.timedOut] < s.clock)
    && (HasGuard(s) && s.executing && s.interrupted ==> GuardCause(s) != NoCause)
    && (s.executing && HasGuard(s) ==> s.phase.Live? || s.phase.Unarmed? || s.phase.Landed?)
  }

  lemma CoarseStepKeeps(s: State, c: Coarse)
    requires CoarseInv(s) && CoarseEnabled(s, c)
    ensures CoarseInv(CoarseNext(s, c))
  {
    match c
    case Plain(a) => PlainKeeps(s, a);
    case SweepBody(id) => SweepBodyKeeps(s, id);
    case InterruptBody(id, cause) => InterruptBodyKeeps(s, id, cause);
  }

  lemma PlainKeeps(s: State, a: Action)
    requires CoarseInv(s) && IsPlain(a) && Enabled(s, a)
    ensures CoarseInv(Next(s, a))
  {
    if a.Bump? {
      BumpKeeps(s);
    } else if a.Arm? {
      ArmKeeps(s, a.timeoutSeconds);
    }
  }

  lemma BumpKeeps(s: State)
    requires CoarseInv(s) && Enabled(s, Bump)
    ensures CoarseInv(Next(s, Bump))
  {
  }

  lemma ArmKeeps(s: State, timeout: nat)
    requires CoarseInv(s) && Enabled(s, Arm(timeout))
    ensures CoarseInv(Next(s, Arm(timeout)))
  {
  }

  lemma SweepBodyKeeps(s: State, id: nat)
    requires CoarseInv(s) && CoarseEnabled(s, SweepBody(id))
    ensures CoarseInv(CoarseNext(s, SweepBody(id)))
  {
  }

  lemma InterruptBodyKeeps(s: State, id: nat, cause: Cause)
    requires CoarseInv(s) && CoarseEnabled(s, InterruptBody(id, cause))
    ensures CoarseInv(CoarseNext(s, InterruptBody(id, cause)))
  {
  }

  predicate CanRunCoarse(s: State, cs: seq<Coarse>)
    decreases |cs|
  {
    cs == [] || (CoarseEnabled(s, cs[0]) && CanRunCoarse(CoarseNext(s, cs[0]), cs[1..]))
  }

  function RunCoarse(s: State, cs: seq<Coarse>): State
    requires CanRunCoarse(s, cs)
    decreases |cs|
  {
    if cs == [] then s else RunCoarse(CoarseNext(s, cs[0]), cs[1..])
  }

  lemma {:induction false} CoarseRunKeeps(s: State, cs: seq<Coarse>)
    requires CanRunCoarse(s, cs) && CoarseInv(s)
    ensures CoarseInv(RunCoarse(s, cs))
    decreases |cs|
  {
    if cs != [] {
      CoarseStepKeeps(s, cs[0]);
      CoarseRunKeeps(CoarseNext(s, cs[0]), cs[1..]);
    }
  }

  /**
   Interrupts are classified correctly when sweeps and cancellations are not torn apart: only a
   query past its own nonzero deadline is reported as TIMEOUT, and a query interrupted while it
   executes has a cause when its guard is asked.
   */
  lemma InterruptsAreClassified(cs: seq<Coarse>)
    requires CanRunCoarse(INITIAL, cs)
    ensures var s := RunCoarse(INITIAL, cs);
            (HasGuard(s) && GuardCause(s) == Timeout ==>
               s.mine in s.armed && s.armed[s.mine] != 0 && s.armed[s.mine] < s.clock)
            && (HasGuard(s) && s.executing && s.interrupted ==> GuardCause(s) != NoCause)
  {
    CoarseRunKeeps(INITIAL, cs);
  }
}
