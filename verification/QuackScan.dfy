/**
 A parallel scan of one Quack result. Any number of client threads pop their own queue of
 chunks and refill it by FETCH; the chunks are put back in order by batch index. One step is
 what happens under one lock or between two of them: a request, the server's answer and the
 receipt of that answer are three steps, so answers may arrive in any order.
 */
module QuackScan {
  import opened Bytes
  import opened QuackServer

  // ---- the state ----

  datatype Status = Idle | Waiting | Arrived(response: Response) | Done | Failed

  /** An emitted chunk with the partition index it is reported under. */
  datatype Output = Output(index: nat, chunk: Chunk)

  /** A scan thread: its queue, the index of its last batch, and what it has emitted. */
  datatype Thread = Thread(started: bool, queue: seq<Chunk>, batch: Option<nat>, status: Status, emitted: seq<Output>)

  /**
   The scan: the server session, the global state (the PREPARE chunks nobody has taken yet, the
   `needs_more_fetch` flag, the uuid), the threads, and, for the proof, the batches handed out
   so far with their owners. Batch 0 are the PREPARE chunks.
   */
  datatype Scan = Scan(session: Session, results: seq<Chunk>, more: bool, uuid: Uuid, threads: seq<Thread>,
                       batches: seq<seq<Chunk>>, owner: map<nat, nat>)

  datatype Action =
    | Init(i: nat)
    | Emit(i: nat)
    | Ask(i: nat)
    | Serve(i: nat, found: bool, max: nat)
    | Receive(i: nat)
    | Finish(i: nat)
    | Other(message: Message)

  /** QuackScanGetPartitionData: 0 until the first batch has arrived. */
  function PartitionIndex(t: Thread): nat { if t.batch.Some? then t.batch.value else 0 }

  predicate Enabled(s: Scan, a: Action) {
    match a
    case Init(i) => i < |s.threads| && !s.threads[i].started
    case Emit(i) => Running(s, i) && s.threads[i].status.Idle? && s.threads[i].queue != []
    case Ask(i) => Running(s, i) && s.threads[i].status.Idle? && s.threads[i].queue == [] && s.more
    case Serve(i, _, _) => Running(s, i) && s.threads[i].status.Waiting?
    case Receive(i) => Running(s, i) && s.threads[i].status.Arrived?
    case Finish(i) => Running(s, i) && s.threads[i].status.Idle? && s.threads[i].queue == [] && !s.more
    case Other(_) => true
  }

  predicate Running(s: Scan, i: nat) { i < |s.threads| && s.threads[i].started }

  function WithThread(s: Scan, i: nat, t: Thread): Scan
    requires i < |s.threads|
  {
    s.(threads := s.threads[i := t])
  }

  function Next(s: Scan, a: Action): Scan
    requires Enabled(s, a)
  {
    match a
    case Init(i) =>
      var t := s.threads[i].(started := true, queue := s.results);
      WithThread(s, i, t).(results := [], owner := if 0 in s.owner then s.owner else s.owner[0 := i])
    case Emit(i) =>
      var t := s.threads[i];
      WithThread(s, i, t.(queue := t.queue[1..],
                          emitted := if t.queue[0].size == 0 then t.emitted
                                     else t.emitted + [Output(PartitionIndex(t), t.queue[0])]))
    case Ask(i) => WithThread(s, i, s.threads[i].(status := Waiting))
    case Serve(i, found, max) =>
      var (session, response) := Served(s, found, max);
      var s' := WithThread(s, i, s.threads[i].(status := Arrived(response))).(session := session);
      if response.FetchOk? && response.index.Some? then
        s'.(batches := s.batches + [response.fetched], owner := s.owner[|s.batches| := i])
      else s'
    case Receive(i) => Received(s, i, s.threads[i].status.response)
    case Finish(i) => WithThread(s, i, s.threads[i].(status := Done))
    case Other(m) => s.(session := Handle(s.session, m).0)
  }

  /** The server's answer to this scan; a request that no longer finds the session fails. */
  function Served(s: Scan, found: bool, max: nat): (Session, Response) {
    Handle(s.session, if found then FetchMessage(s.uuid, max) else Unfound)
  }

  /** An answer without chunks ends the scan; one with chunks refills the queue under its index. */
  function Received(s: Scan, i: nat, response: Response): Scan
    requires i < |s.threads|
  {
    var t := s.threads[i];
    if !response.FetchOk? then WithThread(s, i, t.(status := Failed))
    else if response.fetched == [] then WithThread(s, i, t.(status := Done)).(more := false)
    else WithThread(s, i, t.(queue := response.fetched, batch := response.index, status := Idle))
  }

  /** The chunks before `k` have no rows, the one at `k` is `c`, and `rest` is what follows it. */
  ghost predicate PoppedAt(all: seq<Chunk>, k: nat, c: Chunk, rest: seq<Chunk>) {
    k < |all| && all[k] == c && rest == all[k + 1..] && forall m :: 0 <= m < k ==> all[m].size == 0
  }

  // ---- the client's own code for these steps ----

  /** The objects of thread `i` hold what the scan `s` says. */
  ghost predicate Represents(s: Scan, i: nat, global: GlobalState, local: LocalState)
    reads global, local
  {
    && i < |s.threads| && s.results == global.results && s.more == global.needsMoreFetch
    && s.threads[i].queue == local.results && s.threads[i].batch == local.currentBatchIndex
  }

  class GlobalState {
    var results: seq<Chunk>
    var needsMoreFetch: bool

    constructor (chunks: seq<Chunk>, more: bool)
      ensures results == chunks && needsMoreFetch == more
    {
      results, needsMoreFetch := chunks, more;
    }

    method TryGetResults() returns (taken: seq<Chunk>)
      modifies this
      ensures taken == old(results) && results == [] && needsMoreFetch == old(needsMoreFetch)
    {
      taken := results;
      results := [];
    }
  }

  class LocalState {
    var results: seq<Chunk>
    var currentBatchIndex: Option<nat>

    /** The step Init of this thread. */
    constructor (global: GlobalState, ghost s: Scan, ghost i: nat)
      requires Enabled(s, Init(i)) && s.threads[i].batch.None?
      requires s.results == global.results && s.more == global.needsMoreFetch
      modifies global
      ensures results == old(global.results) && currentBatchIndex == None
      ensures Represents(Next(s, Init(i)), i, global, this)
    {
      currentBatchIndex := None;
      results := [];
      new;
      results := global.TryGetResults();
    }

    /**
     The inner loop: the next chunk with rows, chunks without rows are dropped. When the front
     chunk has rows this is the step Emit.
     */
    method NextChunk(global: GlobalState, ghost s: Scan, ghost i: nat) returns (chunk: Option<Chunk>)
      requires Represents(s, i, global, this)
      modifies this
      ensures currentBatchIndex == old(currentBatchIndex)
      ensures match chunk
              case None => results == [] && forall c :: c in old(results) ==> c.size == 0
              case Some(c) => c.size > 0 && exists k: nat :: PoppedAt(old(results), k, c, results)
      ensures Enabled(s, Emit(i)) && old(results)[0].size > 0 ==>
                chunk == Some(old(results)[0]) && Represents(Next(s, Emit(i)), i, global, this)
    {
      ghost var all := results;
      ghost var k := 0;
      assert all[0..] == all;
      while results != []
        invariant currentBatchIndex == old(currentBatchIndex)
        invariant 0 <= k <= |all| && results == all[k..]
        invariant forall m :: 0 <= m < k ==> all[m].size == 0
      {
        var front := results[0];
        results := results[1..];
        assert front == all[k];
        k := k + 1;
        if front.size > 0 {
          assert PoppedAt(all, k - 1, front, results);
          return Some(front);
        }
      }
      return None;
    }

    /** What a FETCH answer does, the step Receive: false when the scan is over for this thread. */
    method Refill(response: Response, global: GlobalState, ghost s: Scan, ghost i: nat) returns (goOn: bool)
      requires response.FetchOk? && results == [] && Represents(s, i, global, this)
      requires Enabled(s, Receive(i)) && s.threads[i].status.response == response
      modifies this, global
      ensures goOn <==> response.fetched != []
      ensures goOn ==> results == response.fetched && currentBatchIndex == response.index
      ensures !goOn ==> results == [] && currentBatchIndex == old(currentBatchIndex)
      ensures Represents(Next(s, Receive(i)), i, global, this)
      ensures Next(s, Receive(i)).threads[i].status == if goOn then Idle else Done
    {
      if response.fetched == [] {
        global.needsMoreFetch := false;
        return false;
      }
      results := response.fetched;
      currentBatchIndex := response.index;
      return true;
    }
  }

  // ---- reassembly ----

  /** The chunks of `out` reported under `index`, in order. */
  function Under(out: seq<Output>, index: nat): seq<Chunk> {
    if out == [] then []
    else
      var before := Under(out[..|out| - 1], index);
      if out[|out| - 1].index == index then before + [out[|out| - 1].chunk] else before
  }

  /** The chunks all threads reported under `index`. */
  function Gathered(threads: seq<Thread>, index: nat): seq<Chunk> {
    if threads == [] then []
    else Gathered(threads[..|threads| - 1], index) + Under(threads[|threads| - 1].emitted, index)
  }

  /** The result as the consumer puts it together: index 0 first, then the batches in index order. */
  function Assembled(threads: seq<Thread>, count: nat): seq<Chunk> {
    if count == 0 then [] else Assembled(threads, count - 1) + Gathered(threads, count - 1)
  }

  function Concat(batches: seq<seq<Chunk>>): seq<Chunk> {
    if batches == [] then [] else Concat(batches[..|batches| - 1]) + batches[|batches| - 1]
  }

  // ---- the invariant ----

  /** What thread `t` holds under `index` and has not emitted: its queue, or an answer on its way. */
  function Pending(t: Thread, index: nat): seq<Chunk> {
    (if PartitionIndex(t) == index then t.queue else [])
    + (if t.status.Arrived? && t.status.response.FetchOk? && t.status.response.index == Some(index)
       then t.status.response.fetched else [])
  }

  /** Everything thread `t` has to do with under `index`. */
  function Share(t: Thread, index: nat): seq<Chunk> { Under(t.emitted, index) + Pending(t, index) }

  /** A request of this scan has been answered with an error. */
  predicate Broken(t: Thread) { t.status.Failed? || (t.status.Arrived? && t.status.response == Failure) }

  predicate SomeBroken(s: Scan) { exists i :: 0 <= i < |s.threads| && Broken(s.threads[i]) }

  /** The session still carries this scan's result. */
  predicate Mine(s: Scan) { s.session.uuid == s.uuid }

  predicate ThreadOk(t: Thread, count: nat) {
    && (!t.started ==> t == Thread(false, [], None, Idle, []))
    && (t.batch.Some? ==> 0 < t.batch.value < count)
    && (!t.status.Idle? ==> t.queue == [])
    && (forall k :: 0 <= k < |t.emitted| ==> t.emitted[k].index <= PartitionIndex(t))
    && (forall k, m :: 0 <= k < m < |t.emitted| ==> t.emitted[k].index <= t.emitted[m].index)
    && (t.status.Arrived? ==> match t.status.response
                              case FetchOk(chunks, index) =>
                                (index.None? ==> chunks == [])
                                && (index.Some? ==> PartitionIndex(t) < index.value < count)
                              case _ => t.status.response == Failure)
  }

  predicate Owned(s: Scan, i: nat, k: nat)
    requires i < |s.threads|
  {
    Share(s.threads[i], k) == if k < |s.batches| && k in s.owner && s.owner[k] == i then s.batches[k] else []
  }

  /** What every step keeps. */
  ghost predicate Inv(s: Scan) {
    && |s.batches| >= 1
    && (forall k :: 0 <= k < |s.batches| ==> NonEmptyChunks(s.batches[k]))
    && (forall i :: 0 <= i < |s.threads| ==> ThreadOk(s.threads[i], |s.batches|))
    && (forall i: nat, k: nat :: i < |s.threads| ==> Owned(s, i, k))
    && OwnersOk(s)
    && (Mine(s) ==> s.session.nextIndex == |s.batches| && GoodResult(s.session)
                    && (s.session.result.Some? ==> !s.session.result.value.hasError))
  }

  predicate OwnersOk(s: Scan)
    requires |s.batches| >= 1
  {
    && (forall k :: k in s.owner ==> k < |s.batches| && s.owner[k] < |s.threads|)
    && (forall k :: 0 < k < |s.batches| ==> k in s.owner)
    && (if 0 in s.owner then s.results == [] else s.results == s.batches[0])
    && (forall i :: 0 <= i < |s.threads| && s.threads[i].started ==> 0 in s.owner)
  }

  /** This thread has been told that there is no more. */
  predicate SawEnd(t: Thread) {
    t.status.Done? || (t.status.Arrived? && t.status.response.FetchOk? && t.status.response.fetched == [])
  }

  /** The batches are the whole of a result that does not end in an error. */
  predicate Complete(s: Scan, all: seq<Chunk>, fails: bool) { Concat(s.batches) == all && !fails }

  /** As long as no request has failed: nothing is lost between the batches and the server's rest. */
  predicate Conserved(s: Scan, all: seq<Chunk>, fails: bool) {
    && (Mine(s) ==> Concat(s.batches) + Rest(s.session.result) == all
                    && if s.session.result.Some? then s.session.result.value.fails == fails else !fails)
    && (!s.more ==> Complete(s, all, fails))
    && (forall i :: 0 <= i < |s.threads| && SawEnd(s.threads[i]) ==> Complete(s, all, fails))
  }

  /** Something of the result is gone for good: chunks, or the error it would have ended in. */
  predicate Lost(s: Scan, all: seq<Chunk>, fails: bool) {
    (Mine(s) ==> s.session.result.None?) && (|Concat(s.batches)| < |all| || fails)
  }

  /** The uuid of this scan is its own: nobody else fetches under it, and no later PREPARE draws it. */
  predicate Private(s: Scan, a: Action) {
    match a
    case Other(PrepareMessage(_, uuid, _)) => uuid != s.uuid
    case Other(FetchMessage(uuid, _)) => uuid != s.uuid
    case _ => true
  }

  /** A FETCH asks for at least one chunk. */
  predicate AsksForSome(a: Action) { a.Serve? ==> a.max > 0 }

  /** A refused PREPARE while this scan's result is the session's and has something left, chunks or an error. */
  predicate Drops(s: Scan, a: Action) {
    a.Other? && a.message.PrepareMessage? && !a.message.query.Opened? && Mine(s)
    && s.session.result.Some? && (s.session.result.value.rest != [] || s.session.result.value.fails)
  }

  lemma ThreadKept(s: Scan, s': Scan, i: nat)
    requires |s'.threads| == |s.threads| && i < |s.threads| && s'.batches == s.batches && s'.owner == s.owner
    requires forall j :: 0 <= j < |s.threads| && j != i ==> s'.threads[j] == s.threads[j]
    requires forall j: nat, k: nat :: j < |s.threads| ==> Owned(s, j, k)
    requires forall k: nat :: Share(s'.threads[i], k) == Share(s.threads[i], k)
    ensures forall j: nat, k: nat :: j < |s'.threads| ==> Owned(s', j, k)
  {
    forall j: nat, k: nat | j < |s'.threads| ensures Owned(s', j, k) {
      assert Owned(s, j, k);
      assert Share(s'.threads[i], k) == Share(s.threads[i], k);
    }
  }

  lemma EmitShare(t: Thread, t': Thread)
    requires t.status.Idle? && t.queue != [] && t.queue[0].size > 0
    requires t' == t.(queue := t.queue[1..], emitted := t.emitted + [Output(PartitionIndex(t), t.queue[0])])
    ensures forall k: nat :: Share(t', k) == Share(t, k)
  {
    forall k: nat ensures Share(t', k) == Share(t, k) {
      assert t'.emitted[..|t'.emitted| - 1] == t.emitted;
      assert t.queue == [t.queue[0]] + t.queue[1..];
      if PartitionIndex(t) == k {
        assert Under(t.emitted, k) + [t.queue[0]] + t.queue[1..] == Under(t.emitted, k) + t.queue;
      }
    }
  }

  /** The queue of a running thread holds chunks of a batch, so they have rows. */
  lemma QueueGood(s: Scan, i: nat)
    requires Inv(s) && Running(s, i) && s.threads[i].status.Idle?
    ensures NonEmptyChunks(s.threads[i].queue)
  {
    var t := s.threads[i];
    var k := PartitionIndex(t);
    assert Owned(s, i, k);
    var share := Share(t, k);
    assert Pending(t, k) == t.queue;
    forall m | 0 <= m < |t.queue| ensures t.queue[m].size > 0 {
      assert share[|Under(t.emitted, k)| + m] == t.queue[m];
    }
  }

  lemma EmitKeeps(s: Scan, i: nat)
    requires Inv(s) && Enabled(s, Emit(i))
    ensures Inv(Next(s, Emit(i)))
  {
    var t, s' := s.threads[i], Next(s, Emit(i));
    QueueGood(s, i);
    assert t.queue[0].size > 0;
    EmitShare(t, s'.threads[i]);
    ThreadKept(s, s', i);
  }

  lemma InitKeeps(s: Scan, i: nat)
    requires Inv(s) && Enabled(s, Init(i))
    ensures Inv(Next(s, Init(i)))
  {
    var t, s' := s.threads[i], Next(s, Init(i));
    forall j: nat, k: nat | j < |s'.threads| ensures Owned(s', j, k) {
      assert Owned(s, j, k);
      if j == i {
        assert Under(t.emitted, k) == [];
      }
    }
  }

  lemma AskKeeps(s: Scan, i: nat)
    requires Inv(s) && Enabled(s, Ask(i))
    ensures Inv(Next(s, Ask(i)))
  {
    ThreadKept(s, Next(s, Ask(i)), i);
  }

  lemma FinishKeeps(s: Scan, i: nat)
    requires Inv(s) && Enabled(s, Finish(i))
    ensures Inv(Next(s, Finish(i)))
  {
    ThreadKept(s, Next(s, Finish(i)), i);
  }

  lemma {:induction false} UnderNothing(out: seq<Output>, index: nat)
    requires forall k :: 0 <= k < |out| ==> out[k].index < index
    ensures Under(out, index) == []
  {
    if out != [] { UnderNothing(out[..|out| - 1], index); }
  }

  lemma ReceiveShare(t: Thread, t': Thread, count: nat)
    requires ThreadOk(t, count) && t.status.Arrived? && t.status.response.FetchOk? && t.status.response.fetched != []
    requires t' == t.(queue := t.status.response.fetched, batch := t.status.response.index, status := Idle)
    ensures forall k: nat :: Share(t', k) == Share(t, k)
  {
    var chunks := t.status.response.fetched;
    forall k: nat ensures Share(t', k) == Share(t, k) {
      assert [] + chunks == chunks && chunks + [] == chunks;
    }
  }

  lemma ReceiveKeeps(s: Scan, i: nat)
    requires Inv(s) && Enabled(s, Receive(i))
    ensures Inv(Next(s, Receive(i)))
  {
    var t, s' := s.threads[i], Next(s, Receive(i));
    if t.status.response.FetchOk? && t.status.response.fetched != [] {
      ReceiveShare(t, s'.threads[i], |s.batches|);
    }
    ThreadKept(s, s', i);
  }

  /** The server's answer to this scan: a failure, the end without an index, or the next chunks of its result. */
  lemma FetchAnswers(s: Scan, found: bool, max: nat)
    requires Inv(s)
    ensures var (session, response) := Served(s, found, max);
            match response
            case FetchOk(chunks, None) => Mine(s) && chunks == [] && session == s.session && s.session.result.None?
            case FetchOk(chunks, Some(index)) =>
              Mine(s) && index == |s.batches| && session.nextIndex == index + 1 && session.uuid == s.uuid
              && NonEmptyChunks(chunks) && GoodResult(session)
              && (session.result.Some? ==> !session.result.value.hasError)
              && Rest(s.session.result) == chunks + Rest(session.result) && |chunks| <= max
              && (max > 0 && chunks == [] ==> session.result.None?)
              && s.session.result.Some?
              && (if session.result.Some? then session.result.value.fails == s.session.result.value.fails
                  else !s.session.result.value.fails)
            case _ => response == Failure && session.uuid == s.session.uuid
                      && (session == s.session || (session.result.None? && session.nextIndex == s.session.nextIndex))
  {
    if found && Mine(s) && s.session.result.Some? {
      var st := s.session.result.value;
      var b := BatchFromStart(st, max);
      if !Errs(b.result) {
        forall i | 0 <= i < |b.chunks| ensures b.chunks[i].size > 0 { assert st.rest[i] == b.chunks[i]; }
        SuffixGood(st.rest, b.chunks, Rest(b.result), false);
      }
    }
  }

  lemma ServeKeeps(s: Scan, i: nat, found: bool, max: nat)
    requires Inv(s) && Enabled(s, Serve(i, found, max))
    ensures Inv(Next(s, Serve(i, found, max)))
  {
    var (session, response) := Served(s, found, max);
    FetchAnswers(s, found, max);
    if response.FetchOk? && response.index.Some? {
      BatchKeeps(s, i, session, response.fetched);
    } else {
      ThreadKept(s, Next(s, Serve(i, found, max)), i);
    }
  }

  /** A new batch, on its way to the thread that asked. */
  lemma BatchKeeps(s: Scan, i: nat, session: Session, chunks: seq<Chunk>)
    requires Inv(s) && Running(s, i) && s.threads[i].status.Waiting? && NonEmptyChunks(chunks)
    requires session.nextIndex == |s.batches| + 1 && GoodResult(session)
    requires session.result.Some? ==> !session.result.value.hasError
    ensures Inv(Answered(s, i, session, chunks))
  {
    var t, s' := s.threads[i], Answered(s, i, session, chunks);
    BatchOwned(s, i, session, chunks);
    assert forall k :: 0 <= k < |s.batches| ==> s'.batches[k] == s.batches[k];
    assert forall j :: 0 <= j < |s.threads| && j != i ==> s'.threads[j] == s.threads[j];
  }

  function Answered(s: Scan, i: nat, session: Session, chunks: seq<Chunk>): Scan
    requires i < |s.threads|
  {
    var t := s.threads[i].(status := Arrived(FetchOk(chunks, Some(|s.batches|))));
    WithThread(s, i, t).(session := session, batches := s.batches + [chunks], owner := s.owner[|s.batches| := i])
  }

  lemma BatchOwned(s: Scan, i: nat, session: Session, chunks: seq<Chunk>)
    requires Inv(s) && Running(s, i) && s.threads[i].status.Waiting?
    ensures forall j: nat, k: nat :: j < |s.threads| ==> Owned(Answered(s, i, session, chunks), j, k)
  {
    var t, s' := s.threads[i], Answered(s, i, session, chunks);
    forall j: nat, k: nat | j < |s.threads| ensures Owned(s', j, k) {
      assert Owned(s, j, k);
      if j == i {
        AnswerShare(t, s'.threads[i], |s.batches|, chunks, k);
      } else {
        assert s'.threads[j] == s.threads[j];
      }
    }
  }

  lemma AnswerShare(t: Thread, t': Thread, n: nat, chunks: seq<Chunk>, k: nat)
    requires ThreadOk(t, n) && n >= 1 && t.status.Waiting? && t' == t.(status := Arrived(FetchOk(chunks, Some(n))))
    ensures Share(t', k) == if k == n then chunks else Share(t, k)
  {
    if k == n {
      UnderNothing(t.emitted, n);
      assert [] + ([] + chunks) == chunks;
    }
  }

  lemma OtherKeeps(s: Scan, m: Message)
    requires Inv(s) && Private(s, Other(m))
    ensures Inv(Next(s, Other(m)))
  {
    var s' := Next(s, Other(m));
    forall j: nat, k: nat | j < |s'.threads| ensures Owned(s', j, k) { assert Owned(s, j, k); }
  }

  lemma StepKeeps(s: Scan, a: Action)
    requires Inv(s) && Enabled(s, a) && Private(s, a)
    ensures Inv(Next(s, a))
  {
    match a
    case Init(i) => InitKeeps(s, i);
    case Emit(i) => EmitKeeps(s, i);
    case Ask(i) => AskKeeps(s, i);
    case Serve(i, found, max) => ServeKeeps(s, i, found, max);
    case Receive(i) => ReceiveKeeps(s, i);
    case Finish(i) => FinishKeeps(s, i);
    case Other(m) => OtherKeeps(s, m);
  }

  // ---- conservation ----

  lemma BrokenStays(s: Scan, a: Action)
    requires Inv(s) && Enabled(s, a) && SomeBroken(s)
    ensures SomeBroken(Next(s, a))
  {
    var i :| 0 <= i < |s.threads| && Broken(s.threads[i]);
    assert Broken(Next(s, a).threads[i]);
  }

  lemma {:induction false} ConcatSnoc(batches: seq<seq<Chunk>>, chunks: seq<Chunk>)
    ensures Concat(batches + [chunks]) == Concat(batches) + chunks
  {
    assert (batches + [chunks])[..|batches|] == batches;
  }

  lemma ServeConserves(s: Scan, i: nat, found: bool, max: nat, all: seq<Chunk>, fails: bool)
    requires Inv(s) && Enabled(s, Serve(i, found, max)) && max > 0 && Conserved(s, all, fails)
    ensures var s' := Next(s, Serve(i, found, max)); SomeBroken(s') || Conserved(s', all, fails)
  {
    var s' := Next(s, Serve(i, found, max));
    FetchAnswers(s, found, max);
    var (session, response) := Served(s, found, max);
    if response.FetchOk? {
      if response.index.Some? {
        ConcatSnoc(s.batches, response.fetched);
        assert Concat(s.batches) + (response.fetched + Rest(session.result)) == Concat(s'.batches) + Rest(session.result);
        GrownIsAll(Concat(s.batches), response.fetched, Rest(session.result), all);
      }
      assert Concat(s.batches) + [] == Concat(s.batches);
    } else {
      assert Broken(s'.threads[i]);
    }
  }

  /** Once the batches are the whole result, later ones are empty. */
  lemma GrownIsAll(before: seq<Chunk>, chunks: seq<Chunk>, rest: seq<Chunk>, all: seq<Chunk>)
    requires before + (chunks + rest) == all
    ensures before == all ==> chunks == []  && before + chunks == all
    ensures rest == [] ==> before + chunks == all
  {
    assert |before| + |chunks| + |rest| == |all|;
    if before == all { assert before + chunks == before; }
    if rest == [] { assert chunks + rest == chunks; }
  }

  /** Until a request fails nothing is lost, unless a refused PREPARE drops what is left. */
  lemma {:induction false} StepConserves(s: Scan, a: Action, all: seq<Chunk>, fails: bool)
    requires Inv(s) && Enabled(s, a) && Private(s, a) && AsksForSome(a) && Conserved(s, all, fails)
    ensures SomeBroken(Next(s, a)) || if Drops(s, a) then Lost(Next(s, a), all, fails) else Conserved(Next(s, a), all, fails)
  {
    match a
    case Serve(i, found, max) => ServeConserves(s, i, found, max, all, fails);
    case Receive(i) =>
      if !s.threads[i].status.response.FetchOk? { assert Broken(Next(s, a).threads[i]); }
    case Other(m) =>
      if Drops(s, a) { assert |Concat(s.batches)| + |Rest(s.session.result)| == |all|; }
    case _ =>
  }

  /** What is lost stays lost. */
  lemma LostStays(s: Scan, a: Action, all: seq<Chunk>, fails: bool)
    requires Inv(s) && Enabled(s, a) && Private(s, a) && Lost(s, all, fails)
    ensures Lost(Next(s, a), all, fails)
  {
    if a.Serve? { FetchAnswers(s, a.found, a.max); }
  }

  // ---- runs ----

  ghost predicate CanRun(s: Scan, actions: seq<Action>)
    decreases |actions|
  {
    actions == [] || (Enabled(s, actions[0]) && CanRun(Next(s, actions[0]), actions[1..]))
  }

  ghost predicate AllPrivate(s: Scan, actions: seq<Action>)
    requires CanRun(s, actions)
    decreases |actions|
  {
    actions == [] || (Private(s, actions[0]) && AllPrivate(Next(s, actions[0]), actions[1..]))
  }

  predicate AllAskForSome(actions: seq<Action>) { forall a :: a in actions ==> AsksForSome(a) }

  /** Some action of the run drops what is left of the result. */
  ghost predicate SomeDrops(s: Scan, actions: seq<Action>)
    requires CanRun(s, actions)
    decreases |actions|
  {
    actions != [] && (Drops(s, actions[0]) || SomeDrops(Next(s, actions[0]), actions[1..]))
  }

  function RunAll(s: Scan, actions: seq<Action>): Scan
    requires CanRun(s, actions)
    decreases |actions|
  {
    if actions == [] then s else RunAll(Next(s, actions[0]), actions[1..])
  }

  lemma {:induction false} RunKeeps(s: Scan, actions: seq<Action>)
    requires CanRun(s, actions) && AllPrivate(s, actions) && Inv(s)
    ensures Inv(RunAll(s, actions)) && |RunAll(s, actions).threads| == |s.threads|
    ensures SomeBroken(s) ==> SomeBroken(RunAll(s, actions))
    decreases |actions|
  {
    if actions != [] {
      var a := actions[0];
      StepKeeps(s, a);
      if SomeBroken(s) { BrokenStays(s, a); }
      RunKeeps(Next(s, a), actions[1..]);
    }
  }

  lemma {:induction false} RunLost(s: Scan, actions: seq<Action>, all: seq<Chunk>, fails: bool)
    requires CanRun(s, actions) && AllPrivate(s, actions) && Inv(s) && Lost(s, all, fails)
    ensures Lost(RunAll(s, actions), all, fails)
    decreases |actions|
  {
    if actions != [] {
      StepKeeps(s, actions[0]);
      LostStays(s, actions[0], all, fails);
      RunLost(Next(s, actions[0]), actions[1..], all, fails);
    }
  }

  lemma {:induction false} RunConserves(s: Scan, actions: seq<Action>, all: seq<Chunk>, fails: bool)
    requires CanRun(s, actions) && AllPrivate(s, actions) && AllAskForSome(actions) && Inv(s) && Conserved(s, all, fails)
    ensures var end := RunAll(s, actions);
            SomeBroken(end) || if SomeDrops(s, actions) then Lost(end, all, fails) else Conserved(end, all, fails)
    decreases |actions|
  {
    if actions != [] {
      var a, s' := actions[0], Next(s, actions[0]);
      StepKeeps(s, a);
      StepConserves(s, a, all, fails);
      RunKeeps(s', actions[1..]);
      if !SomeBroken(s') {
        if Drops(s, a) { RunLost(s', actions[1..], all, fails); } else { RunConserves(s', actions[1..], all, fails); }
      }
    }
  }

  /** QuackScanInitGlobal: the scan as PREPARE leaves it, with `n` threads that have not started. */
  function Begin(session: Session, response: Response, n: nat): Scan
    requires response.PrepareOk?
  {
    Scan(session, response.prepared, response.more, response.uuid, seq(n, i => Thread(false, [], None, Idle, [])),
         [response.prepared], map[])
  }

  lemma BeginIsGood(before: Session, query: Query, uuid: Uuid, max: nat, n: nat)
    requires query.Opened? && NonEmptyChunks(query.chunks) && Prepare(before, query, uuid, max).1.PrepareOk?
    ensures var (session, response) := Prepare(before, query, uuid, max);
            Inv(Begin(session, response, n))
            && Conserved(Begin(session, response, n), query.chunks, query.fails)
  {
    var (session, response) := Prepare(before, query, uuid, max);
    var s := Begin(session, response, n);
    var b := BatchFromStart(Stream(query.chunks, query.fails, false), max);
    SuffixGood(query.chunks, b.chunks, Rest(b.result), false);
    forall i | 0 <= i < |b.chunks| ensures b.chunks[i].size > 0 { assert query.chunks[i] == b.chunks[i]; }
    assert Concat([b.chunks]) == Concat([]) + b.chunks == b.chunks;
    forall j: nat, k: nat | j < n ensures Owned(s, j, k) { assert Share(s.threads[j], k) == []; }
    assert b.chunks + [] == b.chunks;
  }

  // ---- the result is put together again ----

  predicate AllDone(s: Scan) { |s.threads| > 0 && forall i :: 0 <= i < |s.threads| ==> s.threads[i].status.Done? }

  lemma DoneEmitted(s: Scan, i: nat, k: nat)
    requires Inv(s) && AllDone(s) && i < |s.threads| && k < |s.batches|
    ensures k in s.owner && Under(s.threads[i].emitted, k) == if s.owner[k] == i then s.batches[k] else []
  {
    assert Owned(s, i, k);
    assert s.threads[0].started;
    assert Pending(s.threads[i], k) == [];
    assert Share(s.threads[i], k) == Under(s.threads[i].emitted, k);
  }

  lemma {:induction false} GatheredByOwner(s: Scan, n: nat, k: nat)
    requires Inv(s) && AllDone(s) && n <= |s.threads| && k < |s.batches| && k in s.owner
    ensures Gathered(s.threads[..n], k) == if s.owner[k] < n then s.batches[k] else []
  {
    if n > 0 {
      assert s.threads[..n][..n - 1] == s.threads[..n - 1];
      GatheredByOwner(s, n - 1, k);
      DoneEmitted(s, n - 1, k);
    }
  }

  lemma BatchesGathered(s: Scan, k: nat)
    requires Inv(s) && AllDone(s) && k < |s.batches|
    ensures Gathered(s.threads, k) == s.batches[k]
  {
    DoneEmitted(s, 0, k);
    GatheredByOwner(s, |s.threads|, k);
    assert s.threads[..|s.threads|] == s.threads;
  }

  lemma {:induction false} AssembledIsConcat(threads: seq<Thread>, batches: seq<seq<Chunk>>)
    requires forall k :: 0 <= k < |batches| ==> Gathered(threads, k) == batches[k]
    ensures Assembled(threads, |batches|) == Concat(batches)
    decreases |batches|
  {
    if batches != [] { AssembledIsConcat(threads, batches[..|batches| - 1]); }
  }

  predicate Ascending(out: seq<Output>) { forall k, m :: 0 <= k < m < |out| ==> out[k].index <= out[m].index }

  /** The scan as a PREPARE of `query` leaves it. */
  function Opening(before: Session, query: Query, uuid: Uuid, max: nat, n: nat): Scan
    requires Prepare(before, query, uuid, max).1.PrepareOk?
  {
    Begin(Prepare(before, query, uuid, max).0, Prepare(before, query, uuid, max).1, n)
  }

  /** A run of the scan of an answered PREPARE, under a uuid nobody else uses. */
  ghost predicate IsRun(before: Session, query: Query, uuid: Uuid, max: nat, n: nat, actions: seq<Action>) {
    && query.Opened? && NonEmptyChunks(query.chunks) && Prepare(before, query, uuid, max).1.PrepareOk?
    && CanRun(Opening(before, query, uuid, max, n), actions)
    && AllPrivate(Opening(before, query, uuid, max, n), actions)
  }

  ghost function End(before: Session, query: Query, uuid: Uuid, max: nat, n: nat, actions: seq<Action>): Scan
    requires IsRun(before, query, uuid, max, n, actions)
  {
    RunAll(Opening(before, query, uuid, max, n), actions)
  }

  /** The consumer has put together the whole result of a query that did not fail. */
  predicate WholeResult(s: Scan, query: Query)
    requires query.Opened?
  {
    Assembled(s.threads, |s.batches|) == query.chunks && !query.fails
  }

  lemma EndAssembled(s: Scan)
    requires Inv(s) && AllDone(s)
    ensures Assembled(s.threads, |s.batches|) == Concat(s.batches) && !SomeBroken(s) && SawEnd(s.threads[0])
  {
    forall k | 0 <= k < |s.batches| ensures Gathered(s.threads, k) == s.batches[k] { BatchesGathered(s, k); }
    AssembledIsConcat(s.threads, s.batches);
  }

  /**
   Exactly-once ordered scan: in every interleaving of any number of threads, once all of them
   have ended without an error, the PREPARE chunks at index 0 followed by the batches in index
   order are exactly the chunks of a query that did not fail, if and only if no refused PREPARE
   dropped what was left of the result.
   */
  lemma ScanIsExact(before: Session, query: Query, uuid: Uuid, max: nat, n: nat, actions: seq<Action>)
    requires IsRun(before, query, uuid, max, n, actions) && AllAskForSome(actions)
    requires AllDone(End(before, query, uuid, max, n, actions))
    ensures WholeResult(End(before, query, uuid, max, n, actions), query)
            <==> !SomeDrops(Opening(before, query, uuid, max, n), actions)
  {
    var start, end := Opening(before, query, uuid, max, n), End(before, query, uuid, max, n, actions);
    BeginIsGood(before, query, uuid, max, n);
    RunKeeps(start, actions);
    RunConserves(start, actions, query.chunks, query.fails);
    EndAssembled(end);
  }

  // ---- a batch size of 0 ----

  predicate NothingBatched(s: Scan) { forall k :: 0 <= k < |s.batches| ==> s.batches[k] == [] }

  predicate AllAskForNone(actions: seq<Action>) { forall a :: a in actions && a.Serve? ==> a.max == 0 }

  lemma {:induction false} NothingStays(s: Scan, actions: seq<Action>)
    requires CanRun(s, actions) && AllPrivate(s, actions) && Inv(s) && NothingBatched(s) && AllAskForNone(actions)
    ensures NothingBatched(RunAll(s, actions))
    decreases |actions|
  {
    if actions != [] {
      var a := actions[0];
      if a.Serve? { FetchAnswers(s, a.found, a.max); }
      StepKeeps(s, a);
      NothingStays(Next(s, a), actions[1..]);
    }
  }

  lemma {:induction false} ConcatNothing(batches: seq<seq<Chunk>>)
    requires forall k :: 0 <= k < |batches| ==> batches[k] == []
    ensures Concat(batches) == []
  {
    if batches != [] { ConcatNothing(batches[..|batches| - 1]); }
  }

  /**
   With one batch size for PREPARE and every FETCH, a scan that ends without an error has the
   whole result exactly when the size is positive and nothing was dropped, or there was nothing
   to deliver.
   */
  lemma ConstantBatchSize(before: Session, query: Query, uuid: Uuid, max: nat, n: nat, actions: seq<Action>)
    requires IsRun(before, query, uuid, max, n, actions) && AllDone(End(before, query, uuid, max, n, actions))
    requires forall a :: a in actions && a.Serve? ==> a.max == max
    ensures WholeResult(End(before, query, uuid, max, n, actions), query)
            <==> if max == 0 then query.chunks == [] && !query.fails
                 else !SomeDrops(Opening(before, query, uuid, max, n), actions)
  {
    if max == 0 {
      var start, end := Opening(before, query, uuid, max, n), End(before, query, uuid, max, n, actions);
      BeginIsGood(before, query, uuid, max, n);
      RunKeeps(start, actions);
      NothingStays(start, actions);
      ConcatNothing(end.batches);
      EndAssembled(end);
    } else {
      ScanIsExact(before, query, uuid, max, n, actions);
    }
  }

  /** At every moment, whatever fails: each thread reports its chunks under indices that never decrease. */
  lemma BatchIndexNeverDecreases(before: Session, query: Query, uuid: Uuid, max: nat, n: nat, actions: seq<Action>, i: nat)
    requires IsRun(before, query, uuid, max, n, actions) && i < n
    ensures var s := End(before, query, uuid, max, n, actions);
            |s.threads| == n && Ascending(s.threads[i].emitted)
            && forall k :: 0 <= k < |s.threads[i].emitted| ==> s.threads[i].emitted[k].index <= PartitionIndex(s.threads[i])
  {
    BeginIsGood(before, query, uuid, max, n);
    RunKeeps(Opening(before, query, uuid, max, n), actions);
    var s := End(before, query, uuid, max, n, actions);
    assert ThreadOk(s.threads[i], |s.batches|);
  }

  // ---- the two surroundings that lose rows ----

  lemma OneStep(s: Scan, a: Action, rest: seq<Action>)
    requires Enabled(s, a) && CanRun(Next(s, a), rest)
    ensures CanRun(s, [a] + rest) && RunAll(s, [a] + rest) == RunAll(Next(s, a), rest)
  {
    assert ([a] + rest)[1..] == rest;
  }

  lemma FourSteps(s: Scan, a: Action, b: Action, c: Action, d: Action) returns (end: Scan)
    requires Enabled(s, a) && Enabled(Next(s, a), b) && Enabled(Next(Next(s, a), b), c)
    requires Enabled(Next(Next(Next(s, a), b), c), d)
    ensures CanRun(s, [a, b, c, d]) && end == RunAll(s, [a, b, c, d]) == Next(Next(Next(Next(s, a), b), c), d)
  {
    var s1, s2, s3 := Next(s, a), Next(Next(s, a), b), Next(Next(Next(s, a), b), c);
    end := Next(s3, d);
    assert CanRun(end, []) && RunAll(end, []) == end;
    OneStep(s3, d, []);
    OneStep(s2, c, [d] + []);
    OneStep(s1, b, [c] + ([d] + []));
    OneStep(s, a, [b] + ([c] + ([d] + [])));
    assert [a, b, c, d] == [a] + ([b] + ([c] + ([d] + [])));
  }

  /** With a batch size of 0, PREPARE says that there is more, and the first FETCH looks like the end. */
  lemma BatchSizeZeroLosesRows(c: Chunk)
    requires c.size > 0
    ensures var (session, response) := Prepare(START, Opened([c], false), 1, 0);
            response.PrepareOk? && response.more
            && var s := Begin(session, response, 1);
               var actions := [Init(0), Ask(0), Serve(0, true, 0), Receive(0)];
               CanRun(s, actions) && AllDone(RunAll(s, actions))
               && Assembled(RunAll(s, actions).threads, |RunAll(s, actions).batches|) == []
  {
    var (session, response) := Prepare(START, Opened([c], false), 1, 0);
    var s := Begin(session, response, 1);
    var end := FourSteps(s, Init(0), Ask(0), Serve(0, true, 0), Receive(0));
    NothingEmitted(end.threads, |end.batches|);
  }

  /** A refused PREPARE drops the open result but keeps its uuid: the next FETCH looks like the end. */
  lemma RefusedPrepareLosesRows(c: Chunk)
    requires c.size > 0
    ensures var (session, response) := Prepare(START, Opened([c], false), 1, 0);
            response.PrepareOk?
            && var s := Begin(session, response, 1);
               var actions := [Other(PrepareMessage(Refused, 2, 1))] + [Init(0), Ask(0), Serve(0, true, 1), Receive(0)];
               CanRun(s, actions) && AllDone(RunAll(s, actions))
               && Assembled(RunAll(s, actions).threads, |RunAll(s, actions).batches|) == []
  {
    var (session, response) := Prepare(START, Opened([c], false), 1, 0);
    var s, refused := Begin(session, response, 1), Other(PrepareMessage(Refused, 2, 1));
    var end := FourSteps(Next(s, refused), Init(0), Ask(0), Serve(0, true, 1), Receive(0));
    OneStep(s, refused, [Init(0), Ask(0), Serve(0, true, 1), Receive(0)]);
    NothingEmitted(end.threads, |end.batches|);
  }

  lemma {:induction false} NothingGathered(threads: seq<Thread>, k: nat)
    requires forall i :: 0 <= i < |threads| ==> threads[i].emitted == []
    ensures Gathered(threads, k) == []
  {
    if threads != [] { NothingGathered(threads[..|threads| - 1], k); }
  }

  lemma {:induction false} NothingEmitted(threads: seq<Thread>, n: nat)
    requires forall i :: 0 <= i < |threads| ==> threads[i].emitted == []
    ensures Assembled(threads, n) == []
  {
    if n > 0 {
      NothingEmitted(threads, n - 1);
      NothingGathered(threads, n - 1);
      assert Assembled(threads, n) == Assembled(threads, n - 1) + Gathered(threads, n - 1);
    }
  }
}
