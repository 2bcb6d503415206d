/**
 The row caps: the NDJSON stream, the one-shot body and the two-limit loop of the UI, each
 over the same rows in whatever chunks they come.
 */
module RowCaps {
  import opened QueryGuard
  import opened Streaming

  type Chunk = seq<Row>

  function Flatten(chunks: seq<Chunk>): seq<Row> {
    if chunks == [] then [] else chunks[0] + Flatten(chunks[1..])
  }

  predicate NonEmpty(chunks: seq<Chunk>) { forall i :: 0 <= i < |chunks| ==> chunks[i] != [] }

  /** The first `cap` rows; a cap of 0 is no cap. */
  function Capped(rows: seq<Row>, cap: nat): seq<Row> {
    if cap > 0 && |rows| > cap then rows[..cap] else rows
  }

  // ---- the NDJSON stream ----

  const CALM := Input(Nothing, NoCause, true, true, false, true)

  /** The inputs of an uninterrupted run: the schema call, the chunks, the end of the result. */
  function Calm(chunks: seq<Chunk>): seq<Input> {
    if chunks == [] then [CALM] else [CALM.(fetch := Fetched(chunks[0]))] + Calm(chunks[1..])
  }

  /** The rows of `rows` that the cap of `c` still lets through. */
  function Through(c: Context, rows: seq<Row>): seq<Row> { if Cut(c, rows) then rows[..c.maxRows - c.rowCount] else rows }

  predicate Cut(c: Context, rows: seq<Row>) { c.maxRows > 0 && c.rowCount <= c.maxRows && |rows| > c.maxRows - c.rowCount }

  /** A finished stream: the data that comes through, and an end record that says so. */
  predicate EndsCapped(c: Context, rows: seq<Row>, out: seq<Record>, data: seq<Record>) {
    RowsOf(data) == Through(c, rows) && out == data + [EndRecord(c.rowCount + |Through(c, rows)|, Cut(c, rows))]
  }

  lemma {:induction false} StreamIsCapped(c: Context, chunks: seq<Chunk>) returns (data: seq<Record>)
    requires InStream(c) && NonEmpty(chunks) && (c.maxRows > 0 ==> c.rowCount <= c.maxRows)
    ensures EndsCapped(c, Flatten(chunks), Stream(c, Calm(chunks)), data)
    decreases |chunks|
  {
    if chunks == [] {
      data := [];
      assert [] + [EndRecord(c.rowCount, false)] == [EndRecord(c.rowCount, false)];
    } else {
      var rows, o := chunks[0], Call(c, CALM.(fetch := Fetched(chunks[0])));
      CalmStep(c, chunks);
      PayloadRows(c.chunkMode, rows[..EmitSize(c, |rows|)]);
      data := Payload(c.chunkMode, rows[..EmitSize(c, |rows|)]);
      if o.goOn {
        assert rows[..|rows|] == rows;
        var rest := StreamIsCapped(o.ctx, chunks[1..]);
        ChunkThenRest(c, o.ctx, rows, Flatten(chunks[1..]), data, rest, Stream(o.ctx, Calm(chunks[1..])));
        data := data + rest;
      } else {
        CutHere(c, rows, Flatten(chunks[1..]));
      }
    }
  }

  lemma CalmStep(c: Context, chunks: seq<Chunk>)
    requires chunks != []
    ensures var o := Call(c, CALM.(fetch := Fetched(chunks[0])));
            Stream(c, Calm(chunks)) == if o.goOn then o.out + Stream(o.ctx, Calm(chunks[1..])) else o.out
  {
    assert Calm(chunks)[1..] == Calm(chunks[1..]);
  }

  lemma ChunkThenRest(c: Context, c': Context, rows: seq<Row>, more: seq<Row>, data: seq<Record>, rest: seq<Record>, out: seq<Record>)
    requires c'.maxRows == c.maxRows && c'.rowCount == c.rowCount + |rows| && (c.maxRows > 0 ==> c'.rowCount <= c.maxRows)
    requires RowsOf(data) == rows && EndsCapped(c', more, out, rest)
    ensures EndsCapped(c, rows + more, data + out, data + rest)
  {
    RowsOfConcat(data, rest);
    if Cut(c', more) {
      assert (rows + more)[..c.maxRows - c.rowCount] == rows + more[..c.maxRows - c'.rowCount];
    }
    assert data + (rest + [EndRecord(c'.rowCount + |Through(c', more)|, Cut(c', more))])
        == data + rest + [EndRecord(c'.rowCount + |Through(c', more)|, Cut(c', more))];
  }

  lemma CutHere(c: Context, rows: seq<Row>, more: seq<Row>)
    requires Cut(c, rows)
    ensures Cut(c, rows + more) && Through(c, rows + more) == rows[..c.maxRows - c.rowCount]
  {
  }

  // ---- the one-shot body ----

  /** The fetch loop of the one-shot path: the chunks it keeps and the row count it reports. */
  function OneShotFrom(chunks: seq<Chunk>, cap: nat, count: nat): (seq<Chunk>, nat) {
    if chunks == [] || chunks[0] == [] then ([], count)
    else
      var total := count + |chunks[0]|;
      if cap > 0 && total >= cap then
        if total > cap && total - cap <= |chunks[0]| then ([chunks[0][..|chunks[0]| - (total - cap)]], cap)
        else ([chunks[0]], total)
      else
        var (rest, final) := OneShotFrom(chunks[1..], cap, total);
        ([chunks[0]] + rest, final)
  }

  method OneShot(chunks: seq<Chunk>, maxRows: nat) returns (kept: seq<Chunk>, rowCount: nat)
    ensures (kept, rowCount) == OneShotFrom(chunks, maxRows, 0)
  {
    kept, rowCount := [], 0;
    var next := 0;
    ghost var whole := OneShotFrom(chunks, maxRows, 0);
    assert chunks[0..] == chunks;
    NothingBefore(whole);
    while true
      invariant 0 <= next <= |chunks| && (maxRows > 0 ==> rowCount < maxRows)
      invariant whole == After(kept, OneShotFrom(chunks[next..], maxRows, rowCount))
      decreases |chunks| - next
    {
      if next == |chunks| || chunks[next] == [] {
        NothingBehind(kept);
        break;
      }
      var chunk := chunks[next];
      assert chunks[next..][1..] == chunks[next + 1..] && chunks[next..][0] == chunk;
      rowCount := rowCount + |chunk|;
      if maxRows > 0 && rowCount >= maxRows {
        if rowCount > maxRows {
          var excess := rowCount - maxRows;
          chunk := chunk[..|chunk| - excess];
          rowCount := maxRows;
        }
        kept := kept + [chunk];
        break;
      }
      MoveChunk(kept, chunk, OneShotFrom(chunks[next + 1..], maxRows, rowCount));
      kept := kept + [chunk];
      next := next + 1;
    }
  }

  ghost function After(kept: seq<Chunk>, rest: (seq<Chunk>, nat)): (seq<Chunk>, nat) { (kept + rest.0, rest.1) }

  lemma MoveChunk(kept: seq<Chunk>, chunk: Chunk, rest: (seq<Chunk>, nat))
    ensures After(kept, ([chunk] + rest.0, rest.1)) == After(kept + [chunk], rest)
  {
    assert kept + ([chunk] + rest.0) == kept + [chunk] + rest.0;
  }

  lemma NothingBefore(rest: (seq<Chunk>, nat))
    ensures After([], rest) == rest
  {
    assert [] + rest.0 == rest.0;
  }

  lemma NothingBehind(kept: seq<Chunk>)
    ensures kept + [] == kept
  {
  }

  lemma {:induction false} OneShotIsCapped(chunks: seq<Chunk>, cap: nat, count: nat)
    requires NonEmpty(chunks) && (cap > 0 ==> count < cap)
    ensures var (kept, final) := OneShotFrom(chunks, cap, count);
            Flatten(kept) == Capped(Flatten(chunks), if cap > 0 then cap - count else 0)
            && final == count + |Flatten(kept)|
    decreases |chunks|
  {
    if chunks != [] {
      var total := count + |chunks[0]|;
      if cap > 0 && total >= cap {
        var n := |chunks[0]| - (total - cap);
        assert Flatten([chunks[0][..n]]) == chunks[0][..n] + Flatten([]) == chunks[0][..n];
        assert Flatten(chunks)[..n] == chunks[0][..n];
        if total == cap { assert chunks[0][..n] == chunks[0]; }
        if |Flatten(chunks)| == n { assert Flatten(chunks)[..n] == Flatten(chunks); }
      } else {
        OneShotIsCapped(chunks[1..], cap, total);
        var rest := OneShotFrom(chunks[1..], cap, total).0;
        assert ([chunks[0]] + rest)[1..] == rest;
        if cap > 0 && |Flatten(chunks)| > cap - count {
          assert Flatten(chunks)[..cap - count] == chunks[0] + Flatten(chunks[1..])[..cap - total];
        }
      }
    }
  }

  /**
   Row caps agree: however the rows are split into chunks and whatever the cap, the stream and
   the one-shot body hold exactly the first min(cap, n) rows, both report that number, and the
   stream says that it is truncated exactly when 0 < cap < n.
   */
  lemma RowCapsAgree(chunks: seq<Chunk>, cap: nat, chunkMode: bool) returns (data: seq<Record>)
    requires NonEmpty(chunks)
    ensures var rows := Flatten(chunks);
            Stream(Fresh(cap, chunkMode), [CALM] + Calm(chunks))
            == [SchemaRecord] + data + [EndRecord(|Capped(rows, cap)|, 0 < cap < |rows|)]
            && RowsOf(data) == Capped(rows, cap)
            && Flatten(OneShotFrom(chunks, cap, 0).0) == Capped(rows, cap)
            && OneShotFrom(chunks, cap, 0).1 == |Capped(rows, cap)|
  {
    var c := Fresh(cap, chunkMode);
    assert ([CALM] + Calm(chunks))[1..] == Calm(chunks);
    data := StreamIsCapped(c.(schemaEmitted := true), chunks);
    OneShotIsCapped(chunks, cap, 0);
    var end := [EndRecord(|Capped(Flatten(chunks), cap)|, 0 < cap < |Flatten(chunks)|)];
    assert [SchemaRecord] + (data + end) == [SchemaRecord] + data + end;
  }

  // ---- the two-limit loop of the UI ----

  /** What the loop has fetched, put into the result and appended to the table. */
  datatype Taken = Taken(fetched: nat, inResult: seq<Row>, appended: seq<Row>)

  function Prefix(rows: seq<Row>, n: int): seq<Row> {
    if n <= 0 then [] else if |rows| > n then rows[..n] else rows
  }

  function Larger(a: int, b: int): int { if a > b then a else b }

  /** What a limit has let through so far, and what it lets through of the next chunk. */
  function Grow(taken: seq<Row>, chunk: Chunk, limit: int): seq<Row> {
    if |taken| < limit then taken + Prefix(chunk, limit - |taken|) else taken
  }

  /** One round: the part of the chunk that each limit still allows. */
  function Take(t: Taken, chunk: Chunk, hasTable: bool, resultLimit: int, tableLimit: int): Taken {
    Taken(t.fetched + |chunk|, Grow(t.inResult, chunk, resultLimit),
          if hasTable then Grow(t.appended, chunk, tableLimit) else t.appended)
  }

  function TakeAll(t: Taken, chunks: seq<Chunk>, hasTable: bool, resultLimit: int, tableLimit: int): Taken
    decreases |chunks|
  {
    if chunks == [] || t.fetched >= Larger(resultLimit, tableLimit) then t
    else TakeAll(Take(t, chunks[0], hasTable, resultLimit, tableLimit), chunks[1..], hasTable, resultLimit, tableLimit)
  }

  /** The slice of a chunk that still fits. */
  method FirstRows(chunk: Chunk, rowsLeft: nat) returns (part: Chunk)
    requires rowsLeft > 0
    ensures part == Prefix(chunk, rowsLeft)
  {
    part := chunk;
    if |chunk| > rowsLeft {
      part := chunk[..rowsLeft];
    }
  }

  method RunLoop(chunks: seq<Chunk>, hasTable: bool, resultLimit: int, tableLimit: int) returns (result: seq<Chunk>, appended: seq<Row>)
    ensures var all := TakeAll(Taken(0, [], []), chunks, hasTable, resultLimit, tableLimit);
            Flatten(result) == all.inResult && appended == all.appended
  {
    var rowLimit := if resultLimit > tableLimit then resultLimit else tableLimit;
    var fetched, rowsInResult, next := 0, 0, 0;
    result, appended := [], [];
    ghost var t := Taken(0, [], []);
    ghost var all := TakeAll(t, chunks, hasTable, resultLimit, tableLimit);
    assert chunks[0..] == chunks;
    while fetched < rowLimit && next < |chunks|
      invariant 0 <= next <= |chunks|
      invariant t.fetched == fetched && t.inResult == Flatten(result) && t.appended == appended && rowsInResult == |Flatten(result)|
      invariant all == TakeAll(t, chunks[next..], hasTable, resultLimit, tableLimit)
    {
      var chunk := chunks[next];
      TakeStep(t, chunks, next, hasTable, resultLimit, tableLimit);
      t := Take(t, chunk, hasTable, resultLimit, tableLimit);
      fetched := fetched + |chunk|;
      if hasTable && |appended| < tableLimit {
        var part := FirstRows(chunk, tableLimit - |appended|);
        appended := appended + part;
      }
      if rowsInResult < resultLimit {
        var part := FirstRows(chunk, resultLimit - rowsInResult);
        FlattenSnoc(result, part);
        result := result + [part];
        rowsInResult := rowsInResult + |part|;
      }
      next := next + 1;
    }
  }

  lemma TakeStep(t: Taken, chunks: seq<Chunk>, next: nat, hasTable: bool, resultLimit: int, tableLimit: int)
    requires next < |chunks| && t.fetched < Larger(resultLimit, tableLimit)
    ensures TakeAll(t, chunks[next..], hasTable, resultLimit, tableLimit)
         == TakeAll(Take(t, chunks[next], hasTable, resultLimit, tableLimit), chunks[next + 1..], hasTable, resultLimit, tableLimit)
  {
    assert chunks[next..][1..] == chunks[next + 1..];
  }

  lemma {:induction false} FlattenSnoc(chunks: seq<Chunk>, c: Chunk)
    ensures Flatten(chunks + [c]) == Flatten(chunks) + c
  {
    if chunks == [] {
      assert (chunks + [c])[1..] == [];
    } else {
      assert (chunks + [c])[1..] == chunks[1..] + [c];
      FlattenSnoc(chunks[1..], c);
    }
  }

  /** A limit lets a prefix of the rows through, chunk by chunk. */
  lemma PrefixGrows(done: seq<Row>, chunk: seq<Row>, limit: int)
    ensures Prefix(done + chunk, limit) == Grow(Prefix(done, limit), chunk, limit)
  {
    if |Prefix(done, limit)| >= limit && limit > 0 { assert (done + chunk)[..limit] == done[..limit]; }
  }

  /** What has been taken once `done` has been fetched. */
  function TakenOf(done: seq<Row>, hasTable: bool, resultLimit: int, tableLimit: int): Taken {
    Taken(|done|, Prefix(done, resultLimit), if hasTable then Prefix(done, tableLimit) else [])
  }

  lemma TakeIsTaken(done: seq<Row>, chunk: Chunk, hasTable: bool, resultLimit: int, tableLimit: int)
    ensures Take(TakenOf(done, hasTable, resultLimit, tableLimit), chunk, hasTable, resultLimit, tableLimit)
         == TakenOf(done + chunk, hasTable, resultLimit, tableLimit)
  {
    PrefixGrows(done, chunk, resultLimit);
    PrefixGrows(done, chunk, tableLimit);
  }

  /** Once the larger limit is reached, later rows change nothing. */
  lemma EnoughTaken(done: seq<Row>, more: seq<Row>, limit: int)
    requires |done| >= limit
    ensures Prefix(done + more, limit) == Prefix(done, limit)
  {
    if limit > 0 { assert (done + more)[..limit] == done[..limit]; }
  }

  predicate SameRows(a: Taken, b: Taken) { a.inResult == b.inResult && a.appended == b.appended }

  lemma {:induction false} TakeAllIsPrefix(done: seq<Row>, chunks: seq<Chunk>, hasTable: bool, resultLimit: int, tableLimit: int)
    ensures SameRows(TakeAll(TakenOf(done, hasTable, resultLimit, tableLimit), chunks, hasTable, resultLimit, tableLimit),
                     TakenOf(done + Flatten(chunks), hasTable, resultLimit, tableLimit))
    decreases |chunks|
  {
    if chunks == [] {
      assert done + Flatten(chunks) == done;
    } else if |done| >= Larger(resultLimit, tableLimit) {
      EnoughTaken(done, Flatten(chunks), resultLimit);
      EnoughTaken(done, Flatten(chunks), tableLimit);
    } else {
      TakeIsTaken(done, chunks[0], hasTable, resultLimit, tableLimit);
      TakeAllIsPrefix(done + chunks[0], chunks[1..], hasTable, resultLimit, tableLimit);
      assert done + chunks[0] + Flatten(chunks[1..]) == done + Flatten(chunks);
    }
  }

  /** The UI loop returns and appends the exact prefixes for its two limits. */
  lemma TwoLimitsAreExact(chunks: seq<Chunk>, hasTable: bool, resultLimit: int, tableLimit: int)
    ensures var all := TakeAll(Taken(0, [], []), chunks, hasTable, resultLimit, tableLimit);
            all.inResult == Prefix(Flatten(chunks), resultLimit)
            && all.appended == if hasTable then Prefix(Flatten(chunks), tableLimit) else []
  {
    TakeAllIsPrefix([], chunks, hasTable, resultLimit, tableLimit);
    assert [] + Flatten(chunks) == Flatten(chunks);
  }
}
