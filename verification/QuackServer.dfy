/**
 One Quack session on the server: PREPARE opens a result and returns its first batch, FETCH
 returns the next one. Both run under the session's lock, so each is one step.
 */
module QuackServer {
  import opened Bytes

  /** A data chunk: what is in it, and how many rows it has. */
  datatype Chunk = Chunk(content: int, size: nat)

  /** A streaming result: the chunks still to come, how it ends, and the error state seen so far. */
  datatype Stream = Stream(rest: seq<Chunk>, fails: bool, hasError: bool)

  /** What SendQuery answers. */
  datatype Query = Refused | NoColumns | Opened(chunks: seq<Chunk>, fails: bool)

  type Uuid = int

  datatype Response =
    | PrepareOk(prepared: seq<Chunk>, more: bool, uuid: Uuid)
    | FetchOk(fetched: seq<Chunk>, index: Option<nat>)
    | Failure

  datatype Session = Session(result: Option<Stream>, uuid: Uuid, nextIndex: nat)

  // ---- CreateBatch ----

  /** The chunks of a batch, and the result afterwards: None once the end has been seen. */
  datatype Batch = Batch(chunks: seq<Chunk>, result: Option<Stream>)

  /** Fetch until the batch is full, the end or an error; an error empties the batch. */
  function BatchFrom(done: seq<Chunk>, st: Stream, max: nat): Batch
    decreases max - |done|
  {
    if |done| >= max then Batch(done, Some(st))
    else if st.rest == [] then
      if st.fails then Batch([], Some(st.(hasError := true))) else Batch(done, None)
    else if st.rest[0].size == 0 then Batch(done, None)
    else BatchFrom(done + [st.rest[0]], st.(rest := st.rest[1..]), max)
  }

  method CreateBatch(start: Stream, max: nat) returns (results: seq<Chunk>, result: Option<Stream>)
    ensures Batch(results, result) == BatchFrom([], start, max)
  {
    var st := start;
    results := [];
    while |results| < max
      invariant BatchFrom([], start, max) == BatchFrom(results, st, max)
    {
      if st.rest == [] {
        if st.fails {
          st := st.(hasError := true);
          return [], Some(st);
        }
        return results, None;
      }
      var chunk := st.rest[0];
      st := st.(rest := st.rest[1..]);
      if chunk.size == 0 {
        return results, None;
      }
      results := results + [chunk];
    }
    return results, Some(st);
  }

  predicate NonEmptyChunks(cs: seq<Chunk>) { forall i :: 0 <= i < |cs| ==> cs[i].size > 0 }

  /** What is left of a result. */
  function Rest(result: Option<Stream>): seq<Chunk> {
    if result.None? then [] else result.value.rest
  }

  predicate Errs(result: Option<Stream>) { result.Some? && result.value.hasError }

  /**
   A batch that saw no error takes the next chunks, in order, and nothing else: what it took
   and what is left is what there was. It is full unless the end was reached.
   */
  lemma {:induction false} BatchTakesPrefix(done: seq<Chunk>, st: Stream, max: nat)
    requires |done| <= max && NonEmptyChunks(st.rest) && !st.hasError
    ensures var b := BatchFrom(done, st, max);
            |b.chunks| <= max
            && (Errs(b.result) ==> b.chunks == [] && st.fails)
            && (!Errs(b.result) ==>
                  done + st.rest == b.chunks + Rest(b.result) && (|b.chunks| < max ==> b.result.None?)
                  && (if b.result.Some? then b.result.value.fails == st.fails else !st.fails) && done <= b.chunks)
    decreases max - |done|
  {
    if |done| < max && st.rest != [] {
      BatchTakesPrefix(done + [st.rest[0]], st.(rest := st.rest[1..]), max);
      assert st.rest == [st.rest[0]] + st.rest[1..];
      assert done + st.rest == done + [st.rest[0]] + st.rest[1..];
    } else if st.rest == [] {
      assert done + st.rest == done;
    }
  }

  // ---- the messages ----

  /** PREPARE. The old result is dropped first; a refused query leaves the old uuid behind. */
  function Prepare(s: Session, query: Query, uuid: Uuid, max: nat): (Session, Response) {
    match query
    case Refused => (s.(result := None), Failure)
    case NoColumns => (s.(result := None), Failure)
    case Opened(chunks, fails) =>
      var b := BatchFrom([], Stream(chunks, fails, false), max);
      if Errs(b.result) then (Session(None, uuid, 1), Failure)
      else (Session(b.result, uuid, 1), PrepareOk(b.chunks, |b.chunks| == max, uuid))
  }

  /** FETCH. Only an answered batch consumes an index, and so does an empty one. */
  function Fetch(s: Session, uuid: Uuid, max: nat): (Session, Response) {
    if s.uuid != uuid then (s, Failure)
    else if s.result.None? then (s, FetchOk([], None))
    else if s.result.value.hasError then (s, Failure)
    else
      var b := BatchFrom([], s.result.value, max);
      if Errs(b.result) then (s.(result := None), Failure)
      else (s.(result := b.result, nextIndex := s.nextIndex + 1), FetchOk(b.chunks, Some(s.nextIndex)))
  }

  /**
   PREPARE says that there is more exactly when the result is still open, whatever the batch size;
   and with a positive one nothing is left of a result that is closed without an error.
   */
  lemma MoreMeansOpen(s: Session, query: Query, uuid: Uuid, max: nat)
    requires Prepare(s, query, uuid, max).1.PrepareOk? && NonEmptyChunks(query.chunks)
    ensures var (after, response) := Prepare(s, query, uuid, max);
            (response.more <==> after.result.Some?) && (!response.more ==> response.prepared == query.chunks && !query.fails)
            && after.uuid == response.uuid == uuid
  {
    var b := BatchFromStart(Stream(query.chunks, query.fails, false), max);
    MoreIsFull([], Stream(query.chunks, query.fails, false), max);
  }

  lemma {:induction false} MoreIsFull(done: seq<Chunk>, st: Stream, max: nat)
    requires |done| <= max && !Errs(BatchFrom(done, st, max).result)
    ensures BatchFrom(done, st, max).result.Some? <==> |BatchFrom(done, st, max).chunks| == max
    decreases max - |done|
  {
    if |done| < max && st.rest != [] && st.rest[0].size > 0 { MoreIsFull(done + [st.rest[0]], st.(rest := st.rest[1..]), max); }
  }

  /** The session object; each method body runs under its lock. */
  class HarborSession {
    var result: Option<Stream>
    var uuid: Uuid
    var nextIndex: nat

    function State(): Session
      reads this
    {
      Session(result, uuid, nextIndex)
    }

    constructor ()
      ensures State() == START
    {
      result, uuid, nextIndex := None, 0, 0;
    }

    method HandlePrepare(query: Query, drawn: Uuid, max: nat) returns (response: Response)
      modifies this
      ensures (State(), response) == Prepare(old(State()), query, drawn, max)
    {
      result := None;
      if !query.Opened? {
        return Failure;
      }
      result := Some(Stream(query.chunks, query.fails, false));
      nextIndex := 1;
      uuid := drawn;
      var chunks: seq<Chunk>;
      chunks, result := CreateBatch(result.value, max);
      if result.Some? && result.value.hasError {
        result := None;
        return Failure;
      }
      return PrepareOk(chunks, |chunks| == max, uuid);
    }

    method HandleFetch(requested: Uuid, max: nat) returns (response: Response)
      modifies this
      ensures (State(), response) == Fetch(old(State()), requested, max)
    {
      if uuid != requested {
        return Failure;
      }
      if result.None? {
        return FetchOk([], None);
      }
      if result.value.hasError {
        return Failure;
      }
      var chunks: seq<Chunk>;
      chunks, result := CreateBatch(result.value, max);
      if result.Some? && result.value.hasError {
        result := None;
        return Failure;
      }
      var index := nextIndex;
      nextIndex := nextIndex + 1;
      return FetchOk(chunks, Some(index));
    }
  }

  // ---- runs of one session ----

  /**
   A request as the session sees it. The session is looked up before its lock is taken, and
   DISCONNECT only takes it out of the map: a request that looked it up earlier is answered as
   ever, one that did not find it is `Unfound`.
   */
  datatype Message = PrepareMessage(query: Query, uuid: Uuid, max: nat) | FetchMessage(uuid: Uuid, max: nat) | Unfound

  function Handle(s: Session, m: Message): (Session, Response) {
    match m
    case PrepareMessage(query, uuid, max) => Prepare(s, query, uuid, max)
    case FetchMessage(uuid, max) => Fetch(s, uuid, max)
    case Unfound => (s, Failure)
  }

  /** The session after the messages. */
  function After(s: Session, ms: seq<Message>): Session {
    if ms == [] then s else Handle(After(s, ms[..|ms| - 1]), ms[|ms| - 1]).0
  }

  /** The answer to the last of the messages. */
  function Answer(s: Session, ms: seq<Message>): Response
    requires ms != []
  {
    Handle(After(s, ms[..|ms| - 1]), ms[|ms| - 1]).1
  }

  const START := Session(None, 0, 0)

  /** Every uuid that PREPARE draws is new. */
  predicate FreshUuids(ms: seq<Message>) {
    && (forall i :: 0 <= i < |ms| && ms[i].PrepareMessage? ==> ms[i].uuid != START.uuid)
    && (forall i, j :: 0 <= i < j < |ms| && ms[i].PrepareMessage? && ms[j].PrepareMessage? ==> ms[i].uuid != ms[j].uuid)
  }

  /** Every chunk a result yields has rows. */
  predicate GoodQueries(ms: seq<Message>) {
    forall i :: 0 <= i < |ms| && ms[i].PrepareMessage? && ms[i].query.Opened? ==> NonEmptyChunks(ms[i].query.chunks)
  }

  /** The chunks delivered under `u`, in the order of the answers. */
  function Delivered(u: Uuid, ms: seq<Message>): seq<Chunk> {
    if ms == [] then []
    else
      var before := Delivered(u, ms[..|ms| - 1]);
      var m, r := ms[|ms| - 1], Answer(START, ms);
      if m.PrepareMessage? && m.uuid == u && r.PrepareOk? then before + r.prepared
      else if m.FetchMessage? && m.uuid == u && r.FetchOk? then before + r.fetched
      else before
  }

  /** The batch indices handed out under `u`, in the order of the answers. */
  function Indices(u: Uuid, ms: seq<Message>): seq<nat> {
    if ms == [] then []
    else
      var before := Indices(u, ms[..|ms| - 1]);
      var m, r := ms[|ms| - 1], Answer(START, ms);
      if m.FetchMessage? && m.uuid == u && r.FetchOk? && r.index.Some? then before + [r.index.value] else before
  }

  /** Whether a PREPARE drew `u`. */
  predicate Drawn(u: Uuid, ms: seq<Message>) { exists i :: 0 <= i < |ms| && ms[i].PrepareMessage? && ms[i].uuid == u }

  /** The chunks of the query whose PREPARE drew `u`. */
  function QueryOf(u: Uuid, ms: seq<Message>): seq<Chunk> {
    if ms == [] then []
    else if ms[|ms| - 1].PrepareMessage? && ms[|ms| - 1].uuid == u then
      if ms[|ms| - 1].query.Opened? then ms[|ms| - 1].query.chunks else []
    else QueryOf(u, ms[..|ms| - 1])
  }

  predicate CountsUp(xs: seq<nat>) { forall i :: 0 <= i < |xs| ==> xs[i] == i + 1 }

  /** What holds of a uuid after the messages. */
  predicate Isolated(u: Uuid, ms: seq<Message>) {
    && CountsUp(Indices(u, ms))
    && Delivered(u, ms) <= QueryOf(u, ms)
    && (!Drawn(u, ms) ==> Delivered(u, ms) == [] && Indices(u, ms) == [])
  }

  /** What ties the session to the uuid it carries. */
  predicate Tied(s: Session, ms: seq<Message>) {
    var u := s.uuid;
    && (u != START.uuid ==> s.nextIndex == |Indices(u, ms)| + 1)
    && (s.result.Some? ==>
          Drawn(u, ms) && !s.result.value.hasError
          && Delivered(u, ms) + s.result.value.rest == QueryOf(u, ms))
    && (u == START.uuid ==> s.result.None?)
    && (u != START.uuid ==> Drawn(u, ms))
  }

  lemma BatchFromStart(st: Stream, max: nat) returns (b: Batch)
    requires NonEmptyChunks(st.rest) && !st.hasError
    ensures b == BatchFrom([], st, max) && |b.chunks| <= max
    ensures Errs(b.result) ==> b.chunks == [] && st.fails
    ensures !Errs(b.result) ==> st.rest == b.chunks + Rest(b.result) && (|b.chunks| < max ==> b.result.None?)
    ensures !Errs(b.result) ==> if b.result.Some? then b.result.value.fails == st.fails else !st.fails
  {
    b := BatchFrom([], st, max);
    BatchTakesPrefix([], st, max);
    assert [] + st.rest == st.rest;
  }

  lemma {:induction false} DrawnEarlier(u: Uuid, ms: seq<Message>)
    requires ms != []
    ensures Drawn(u, ms) <==> Drawn(u, ms[..|ms| - 1]) || (ms[|ms| - 1].PrepareMessage? && ms[|ms| - 1].uuid == u)
  {
    var n := |ms| - 1;
    if i :| 0 <= i < |ms| && ms[i].PrepareMessage? && ms[i].uuid == u {
      if i < n { assert ms[..n][i] == ms[i]; }
    }
    if i :| 0 <= i < n && ms[..n][i].PrepareMessage? && ms[..n][i].uuid == u { assert ms[i] == ms[..n][i]; }
  }

  /** A message changes nothing for the uuids it is not about. */
  lemma OthersKeep(u: Uuid, ms: seq<Message>)
    requires ms != []
    requires match ms[|ms| - 1]
             case PrepareMessage(_, v, _) => v != u
             case FetchMessage(v, _) => v != u
             case Unfound => true
    ensures Delivered(u, ms) == Delivered(u, ms[..|ms| - 1]) && Indices(u, ms) == Indices(u, ms[..|ms| - 1])
    ensures QueryOf(u, ms) == QueryOf(u, ms[..|ms| - 1]) && (Drawn(u, ms) <==> Drawn(u, ms[..|ms| - 1]))
  {
    DrawnEarlier(u, ms);
  }

  lemma PrepareStep(ms: seq<Message>)
    requires ms != [] && ms[|ms| - 1].PrepareMessage? && FreshUuids(ms) && GoodQueries(ms)
    requires var past := ms[..|ms| - 1];
             Tied(After(START, past), past) && Isolated(ms[|ms| - 1].uuid, past)
    ensures Tied(After(START, ms), ms) && Isolated(ms[|ms| - 1].uuid, ms)
  {
    var n := |ms| - 1;
    var past, m := ms[..n], ms[n];
    var s := After(START, past);
    forall i | 0 <= i < n && past[i].PrepareMessage? ensures past[i].uuid != m.uuid { assert past[i] == ms[i]; }
    assert !Drawn(m.uuid, past);
    DrawnEarlier(m.uuid, ms);
    if m.query.Opened? {
      var b := BatchFromStart(Stream(m.query.chunks, m.query.fails, false), m.max);
      assert [] + b.chunks == b.chunks;
    } else if s.uuid != m.uuid {
      OthersKeep(s.uuid, ms);
    }
  }

  lemma FetchStep(ms: seq<Message>)
    requires ms != [] && ms[|ms| - 1].FetchMessage? && GoodQueries(ms)
    requires var past := ms[..|ms| - 1];
             Tied(After(START, past), past) && Isolated(ms[|ms| - 1].uuid, past)
             && GoodResult(After(START, past))
    ensures Tied(After(START, ms), ms) && Isolated(ms[|ms| - 1].uuid, ms)
  {
    var n := |ms| - 1;
    var past, m := ms[..n], ms[n];
    var s := After(START, past);
    DrawnEarlier(m.uuid, ms);
    if s.uuid != m.uuid {
      OthersKeep(s.uuid, ms);
    } else if s.result.Some? {
      var b := BatchFromStart(s.result.value, m.max);
      assert !Errs(b.result) ==>
          Delivered(m.uuid, past) + (b.chunks + Rest(b.result)) == Delivered(m.uuid, past) + b.chunks + Rest(b.result);
    }
  }

  predicate GoodResult(s: Session) { NonEmptyChunks(Rest(s.result)) }

  lemma {:induction false} ResultsStayGood(ms: seq<Message>)
    requires GoodQueries(ms)
    ensures GoodResult(After(START, ms)) && (After(START, ms).result.Some? ==> !After(START, ms).result.value.hasError)
  {
    if ms != [] {
      var n := |ms| - 1;
      var past, m := ms[..n], ms[n];
      assert forall i :: 0 <= i < n ==> past[i] == ms[i];
      ResultsStayGood(past);
      var s := After(START, past);
      if m.PrepareMessage? && m.query.Opened? {
        var b := BatchFromStart(Stream(m.query.chunks, m.query.fails, false), m.max);
        SuffixGood(m.query.chunks, b.chunks, Rest(b.result), Errs(b.result));
      } else if m.FetchMessage? && s.result.Some? {
        var b := BatchFromStart(s.result.value, m.max);
        SuffixGood(s.result.value.rest, b.chunks, Rest(b.result), Errs(b.result));
      }
    }
  }

  lemma SuffixGood(all: seq<Chunk>, taken: seq<Chunk>, rest: seq<Chunk>, errs: bool)
    requires NonEmptyChunks(all) && (!errs ==> all == taken + rest)
    ensures !errs ==> NonEmptyChunks(rest)
  {
    if !errs {
      forall i | 0 <= i < |rest| ensures rest[i].size > 0 { assert rest[i] == all[|taken| + i]; }
    }
  }

  lemma {:induction false} RunIsIsolated(u: Uuid, ms: seq<Message>)
    requires FreshUuids(ms) && GoodQueries(ms)
    ensures Isolated(u, ms) && Tied(After(START, ms), ms)
    decreases |ms|
  {
    if ms != [] {
      var n := |ms| - 1;
      var past, m := ms[..n], ms[n];
      assert forall i :: 0 <= i < n ==> past[i] == ms[i];
      RunIsIsolated(u, past);
      match m
      case PrepareMessage(_, v, _) =>
        RunIsIsolated(v, past);
        PrepareStep(ms);
        if u != v { OthersKeep(u, ms); }
      case FetchMessage(v, _) =>
        RunIsIsolated(v, past);
        ResultsStayGood(past);
        FetchStep(ms);
        if u != v { OthersKeep(u, ms); }
      case Unfound =>
        OthersKeep(u, ms);
        OthersKeep(After(START, past).uuid, ms);
    }
  }

  /**
   Result isolation: over any interleaving of messages with fresh uuids, what is delivered
   under a uuid is a prefix of the one query whose PREPARE drew it, in order and without
   repetition, and its batch indices are 1, 2, 3, ... without gap.
   */
  lemma ResultIsolation(u: Uuid, ms: seq<Message>)
    requires FreshUuids(ms) && GoodQueries(ms)
    ensures Delivered(u, ms) <= QueryOf(u, ms)
    ensures CountsUp(Indices(u, ms))
  {
    RunIsIsolated(u, ms);
  }
}
