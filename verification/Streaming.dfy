/**
 The NDJSON content provider: a state machine the HTTP library calls until it answers false.
 Each call fetches one chunk and writes its records, or writes the one terminal record.
 */
module Streaming {
  import opened Bytes
  import opened QueryGuard

  type Row = int

  datatype Record =
    | SchemaRecord
    | RowRecord(row: Row)
    | ChunkRecord(rows: seq<Row>)
    | EndRecord(rowCount: nat, truncated: bool)
    | ErrorRecord(code: ErrorCode)

  datatype ErrorCode = QueryTimeout | QueryCancelled | SqlError

  /** What Fetch does: a chunk (possibly without rows), nothing, or an exception. */
  datatype Fetch = Fetched(rows: seq<Row>) | Nothing | Throws

  /**
   One call: what the database, the guard, the sink and the encoder do in it. A call writes once,
   but for the one that reaches the cap, whose end record is a second write. The encoder may fail
   on the schema, on a chunk or on the end record; `errorOk` says whether an error record, if it
   comes to that, can be built and written.
   */
  datatype Input = Input(fetch: Fetch, cause: Cause, writeOk: bool, endWriteOk: bool, encoderFails: bool, errorOk: bool)

  datatype Context = Context(maxRows: nat, chunkMode: bool, rowCount: nat, truncated: bool,
                             schemaEmitted: bool, endEmitted: bool, errorEmitted: bool)

  function Fresh(maxRows: nat, chunkMode: bool): Context {
    Context(maxRows, chunkMode, 0, false, false, false, false)
  }

  /** The outcome of a call: the context, the records that reached the client, and whether to call again. */
  datatype Outcome = Outcome(ctx: Context, out: seq<Record>, goOn: bool)

  function Written(r: seq<Record>, ok: bool): seq<Record> { if ok then r else [] }

  function CodeFor(cause: Cause): ErrorCode {
    if cause.Timeout? then QueryTimeout else if cause.UserCancel? then QueryCancelled else SqlError
  }

  /** EmitStreamingErrorSafe: the error record if it can be built and written, and the stream is closed. */
  function Fail(c: Context, code: ErrorCode, i: Input): Outcome {
    Outcome(c.(errorEmitted := true), Written([ErrorRecord(code)], i.errorOk), false)
  }

  /** The cap: how many rows of a chunk still fit. The count never exceeds the cap, so the source's subtraction does not wrap. */
  function EmitSize(c: Context, size: nat): nat {
    if c.maxRows > 0 && c.rowCount + size > c.maxRows then
      if c.rowCount <= c.maxRows then c.maxRows - c.rowCount else 0
    else size
  }

  function RowRecords(rows: seq<Row>): (r: seq<Record>)
    ensures |r| == |rows| && forall i :: 0 <= i < |rows| ==> r[i] == RowRecord(rows[i])
  {
    seq(|rows|, i requires 0 <= i < |rows| => RowRecord(rows[i]))
  }

  function Payload(chunkMode: bool, rows: seq<Row>): seq<Record> {
    if chunkMode then [ChunkRecord(rows)] else RowRecords(rows)
  }

  function SendChunk(c: Context, rows: seq<Row>, i: Input): Outcome {
    var n := EmitSize(c, |rows|);
    var t := c.(truncated := c.truncated || (c.maxRows > 0 && c.rowCount + |rows| > c.maxRows));
    if i.encoderFails then Fail(t, CodeFor(i.cause), i)
    else if !i.writeOk then Outcome(t, [], false)
    else
      var counted := t.(rowCount := c.rowCount + n);
      if counted.truncated then
        Outcome(counted.(endEmitted := true),
                Payload(c.chunkMode, rows[..n]) + Written([EndRecord(counted.rowCount, true)], i.endWriteOk), false)
      else Outcome(counted, Payload(c.chunkMode, rows[..n]), true)
  }

  function Finish(c: Context, i: Input): Outcome {
    if i.cause.Timeout? || i.cause.UserCancel? then Fail(c, CodeFor(i.cause), i)
    else if i.cause.Disconnect? then Outcome(c, [], false)
    else if i.encoderFails then Fail(c, SqlError, i)
    else Outcome(c.(endEmitted := true), Written([EndRecord(c.rowCount, c.truncated)], i.writeOk), false)
  }

  /** One call of the content provider. */
  function Call(c: Context, i: Input): Outcome {
    if !c.schemaEmitted then
      if i.encoderFails then Fail(c, CodeFor(i.cause), i)
      else if !i.writeOk then Outcome(c, [], false)
      else Outcome(c.(schemaEmitted := true), [SchemaRecord], true)
    else if c.endEmitted || c.errorEmitted then Outcome(c, [], false)
    else
      match i.fetch
      case Throws => Fail(c, CodeFor(i.cause), i)
      case Nothing => Finish(c, i)
      case Fetched(rows) => if rows == [] then Finish(c, i) else SendChunk(c, rows, i)
  }

  /** The streaming context, as the provider closure updates it. */
  class StreamingCtx {
    var maxRows: nat
    var chunkMode: bool
    var rowCount: nat
    var truncated: bool
    var schemaEmitted: bool
    var endEmitted: bool
    var errorEmitted: bool

    function State(): Context
      reads this
    {
      Context(maxRows, chunkMode, rowCount, truncated, schemaEmitted, endEmitted, errorEmitted)
    }

    constructor (cap: nat, chunks: bool)
      ensures State() == Fresh(cap, chunks)
    {
      maxRows, chunkMode, rowCount, truncated := cap, chunks, 0, false;
      schemaEmitted, endEmitted, errorEmitted := false, false, false;
    }

    method EmitStreamingErrorSafe(code: ErrorCode, i: Input) returns (out: seq<Record>)
      modifies this`errorEmitted
      ensures errorEmitted && out == Written([ErrorRecord(code)], i.errorOk)
    {
      out := if i.errorOk then [ErrorRecord(code)] else [];
      errorEmitted := true;
    }

    method FinishStream(i: Input) returns (out: seq<Record>)
      modifies this
      ensures Outcome(State(), out, false) == Finish(old(State()), i)
    {
      if i.cause.Timeout? {
        out := EmitStreamingErrorSafe(QueryTimeout, i);
      } else if i.cause.UserCancel? {
        out := EmitStreamingErrorSafe(QueryCancelled, i);
      } else if i.cause.Disconnect? {
        out := [];
      } else if i.encoderFails {
        out := EmitStreamingErrorSafe(SqlError, i);
      } else {
        out := if i.writeOk then [EndRecord(rowCount, truncated)] else [];
        endEmitted := true;
      }
    }

    method Provide(i: Input) returns (out: seq<Record>, goOn: bool)
      modifies this
      ensures Outcome(State(), out, goOn) == Call(old(State()), i)
    {
      if !schemaEmitted {
        if i.encoderFails {
          out := EmitStreamingErrorSafe(CodeFor(i.cause), i);
          return out, false;
        }
        if !i.writeOk {
          return [], false;
        }
        schemaEmitted := true;
        return [SchemaRecord], true;
      }
      if endEmitted || errorEmitted {
        return [], false;
      }
      if i.fetch.Throws? {
        out := EmitStreamingErrorSafe(CodeFor(i.cause), i);
        return out, false;
      }
      if i.fetch.Nothing? || i.fetch.rows == [] {
        out := FinishStream(i);
        return out, false;
      }
      var rows := i.fetch.rows;
      var emitSize := EmitSize(State(), |rows|);
      if maxRows > 0 && rowCount + |rows| > maxRows {
        truncated := true;
      }
      if i.encoderFails {
        out := EmitStreamingErrorSafe(CodeFor(i.cause), i);
        return out, false;
      }
      if !i.writeOk {
        return [], false;
      }
      out := Payload(chunkMode, rows[..emitSize]);
      rowCount := rowCount + emitSize;
      if truncated {
        out := out + if i.endWriteOk then [EndRecord(rowCount, true)] else [];
        endEmitted := true;
        return out, false;
      }
      return out, true;
    }
  }

  // ---- whole streams ----

  /** The records that reach the client over calls up to the first that answers false. */
  function Stream(c: Context, inputs: seq<Input>): seq<Record>
    decreases |inputs|
  {
    if inputs == [] then []
    else
      var o := Call(c, inputs[0]);
      if o.goOn then o.out + Stream(o.ctx, inputs[1..]) else o.out
  }

  /** Some call answers false. */
  predicate Ends(c: Context, inputs: seq<Input>)
    decreases |inputs|
  {
    inputs != [] && (!Call(c, inputs[0]).goOn || Ends(Call(c, inputs[0]).ctx, inputs[1..]))
  }

  predicate IsTerminal(r: Record) { r.EndRecord? || r.ErrorRecord? }

  predicate IsData(r: Record, chunkMode: bool) { if chunkMode then r.ChunkRecord? else r.RowRecord? }

  predicate AllData(rs: seq<Record>, chunkMode: bool) { forall i :: 0 <= i < |rs| ==> IsData(rs[i], chunkMode) }

  /** The rows in a sequence of records. */
  function RowsOf(rs: seq<Record>): seq<Row> {
    if rs == [] then []
    else
      RowsOf(rs[..|rs| - 1])
      + match rs[|rs| - 1]
        case RowRecord(row) => [row]
        case ChunkRecord(rows) => rows
        case _ => []
  }

  lemma {:induction false} RowsOfConcat(a: seq<Record>, b: seq<Record>)
    ensures RowsOf(a + b) == RowsOf(a) + RowsOf(b)
    decreases |b|
  {
    if b == [] {
      assert a + b == a;
    } else {
      assert (a + b)[..|a + b| - 1] == a + b[..|b| - 1];
      RowsOfConcat(a, b[..|b| - 1]);
    }
  }

  lemma {:induction false} RowsOfRows(rows: seq<Row>)
    ensures RowsOf(RowRecords(rows)) == rows
    decreases |rows|
  {
    if rows != [] {
      var n := |rows| - 1;
      assert RowRecords(rows)[..n] == RowRecords(rows[..n]);
      RowsOfRows(rows[..n]);
    }
  }

  lemma PayloadRows(chunkMode: bool, rows: seq<Row>)
    ensures RowsOf(Payload(chunkMode, rows)) == rows && AllData(Payload(chunkMode, rows), chunkMode)
  {
    if chunkMode {
      assert RowsOf([ChunkRecord(rows)]) == RowsOf([]) + rows;
    } else {
      RowsOfRows(rows);
    }
  }

  /** The part of a stream behind the schema: data records, then at most one terminal record with nothing behind it. */
  datatype Body = Body(data: seq<Record>, terminal: Option<Record>)

  function BodyText(b: Body): seq<Record> { b.data + if b.terminal.Some? then [b.terminal.value] else [] }

  predicate BodyOk(b: Body, c: Context) {
    && AllData(b.data, c.chunkMode)
    && (b.terminal.Some? ==> IsTerminal(b.terminal.value))
    && (b.terminal.Some? && b.terminal.value.EndRecord? ==> b.terminal.value.rowCount == c.rowCount + |RowsOf(b.data)|)
  }

  /** A run with no write failure and no disconnected client. */
  predicate Undisturbed(inputs: seq<Input>) {
    forall i :: 0 <= i < |inputs| ==>
                  inputs[i].writeOk && inputs[i].endWriteOk && inputs[i].errorOk && !inputs[i].cause.Disconnect?
  }

  predicate InStream(c: Context) { c.schemaEmitted && !c.endEmitted && !c.errorEmitted && !c.truncated }

  /** One call while rows are still coming. */
  lemma CallShape(c: Context, i: Input) returns (b: Body)
    requires InStream(c)
    ensures Call(c, i).out == BodyText(b) && BodyOk(b, c)
    ensures Call(c, i).goOn ==> b.terminal.None? && InStream(Call(c, i).ctx)
    ensures Call(c, i).goOn ==> Call(c, i).ctx.chunkMode == c.chunkMode && Call(c, i).ctx.rowCount == c.rowCount + |RowsOf(b.data)|
    ensures i.writeOk && i.endWriteOk && i.errorOk && !i.cause.Disconnect? && !Call(c, i).goOn ==> b.terminal.Some?
  {
    var o := Call(c, i);
    if i.fetch.Fetched? && i.fetch.rows != [] && !i.encoderFails {
      var n := EmitSize(c, |i.fetch.rows|);
      PayloadRows(c.chunkMode, i.fetch.rows[..n]);
      if !i.writeOk {
        b := Body([], None);
      } else {
        b := Body(Payload(c.chunkMode, i.fetch.rows[..n]),
                  if o.goOn || !i.endWriteOk then None else Some(EndRecord(c.rowCount + n, true)));
        assert b.data + [] == b.data;
      }
    } else {
      b := Body([], if o.out == [] then None else Some(o.out[0]));
      assert RowsOf([]) == [];
    }
  }

  lemma {:induction false} BodyShape(c: Context, inputs: seq<Input>) returns (b: Body)
    requires InStream(c)
    ensures Stream(c, inputs) == BodyText(b) && BodyOk(b, c)
    ensures Undisturbed(inputs) && Ends(c, inputs) ==> b.terminal.Some?
    decreases |inputs|
  {
    if inputs == [] {
      b := Body([], None);
    } else {
      b := CallShape(c, inputs[0]);
      var o := Call(c, inputs[0]);
      if o.goOn {
        var rest := BodyShape(o.ctx, inputs[1..]);
        JoinBodies(b.data, rest);
        b := Body(b.data + rest.data, rest.terminal);
      }
    }
  }

  lemma JoinBodies(data: seq<Record>, rest: Body)
    ensures BodyText(Body(data + rest.data, rest.terminal)) == BodyText(Body(data, None)) + BodyText(rest)
    ensures RowsOf(data + rest.data) == RowsOf(data) + RowsOf(rest.data)
  {
    RowsOfConcat(data, rest.data);
    assert data + [] == data;
  }

  /**
   Stream shape: the client sees the schema record, then row or chunk records, then at most one
   terminal record with nothing behind it; without the schema record it sees no data. A complete
   run that nothing disturbs has a terminal record, whatever the encoder does, and the count in
   an end record is the number of rows sent before it.
   */
  lemma StreamShape(maxRows: nat, chunkMode: bool, inputs: seq<Input>) returns (schema: bool, b: Body)
    ensures var c := Fresh(maxRows, chunkMode);
            BodyOk(b, c) && (!schema ==> b.data == [])
            && Stream(c, inputs) == (if schema then [SchemaRecord] else []) + BodyText(b)
            && (Undisturbed(inputs) && Ends(c, inputs) ==> b.terminal.Some?)
  {
    var c := Fresh(maxRows, chunkMode);
    schema, b := false, Body([], None);
    if inputs != [] {
      if inputs[0].encoderFails {
        b := if inputs[0].errorOk then Body([], Some(ErrorRecord(CodeFor(inputs[0].cause)))) else b;
      } else if inputs[0].writeOk {
        schema := true;
        b := BodyShape(c.(schemaEmitted := true), inputs[1..]);
      }
    }
    assert RowsOf([]) == [];
  }

  /**
   What the last call of a stream writes when the sink works: a Fetch that throws, or a chunk that
   cannot be encoded, is an error record, and an empty Fetch is an error record if the query timed
   out or was cancelled, nothing if the client has gone, and the end record otherwise.
   */
  lemma LastRecord(c: Context, i: Input)
    requires InStream(c) && i.writeOk && i.errorOk
    requires i.encoderFails || i.fetch == Throws || i.fetch == Nothing || i.fetch == Fetched([])
    ensures !Call(c, i).goOn
    ensures var empty := i.fetch == Nothing || i.fetch == Fetched([]);
            Call(c, i).out
            == match i.cause
               case Timeout => [ErrorRecord(QueryTimeout)]
               case UserCancel => [ErrorRecord(QueryCancelled)]
               case Disconnect => if empty then [] else [ErrorRecord(SqlError)]
               case NoCause => if empty && !i.encoderFails then [EndRecord(c.rowCount, c.truncated)] else [ErrorRecord(SqlError)]
  {
  }

  /** Behind a terminal record nothing is written, however often the provider is called. */
  lemma SilentBehindTerminal(c: Context, i: Input, r: Record, later: Input)
    requires c.schemaEmitted && r in Call(c, i).out && IsTerminal(r)
    ensures Call(Call(c, i).ctx, later) == Outcome(Call(c, i).ctx, [], false)
  {
  }

  /**
   A query that was interrupted while it executed never ends with an end record: when its Fetch
   comes back empty the guard names a cause, and the provider writes an error record, or
   nothing for a client that has gone.
   */
  lemma InterruptedStreamHasNoEnd(cs: seq<Coarse>, c: Context, i: Input)
    requires CanRunCoarse(INITIAL, cs) && InStream(c)
    requires var s := RunCoarse(INITIAL, cs);
             HasGuard(s) && s.executing && s.interrupted && i.cause == GuardCause(s)
    requires i.fetch == Nothing || i.fetch == Fetched([])
    ensures !Call(c, i).goOn && !Call(c, i).ctx.endEmitted
    ensures i.errorOk ==>
              && (i.cause == Timeout ==> Call(c, i).out == [ErrorRecord(QueryTimeout)])
              && (i.cause == UserCancel ==> Call(c, i).out == [ErrorRecord(QueryCancelled)])
              && (i.cause == Disconnect ==> Call(c, i).out == [])
              && i.cause != NoCause
  {
    InterruptsAreClassified(cs);
  }

  /**
   A run of single steps, whose guards get the timeouts `ts`, that interrupts the executing query,
   and whose empty Fetch all the same makes the provider write an end record.
   */
  ghost predicate EndsInterrupted(actions: seq<Action>, ts: seq<nat>, cancelled: bool, c: Context) {
    && CanRun(INITIAL, actions) && Timeouts(actions) == ts && (cancelled || NoCancel(actions))
    && var s := RunAll(INITIAL, actions);
       HasGuard(s) && s.executing && s.interrupted && s.mine == |ts|
       && Call(c, Input(Nothing, GuardCause(s), true, true, false, true)).out == [EndRecord(c.rowCount, c.truncated)]
  }

  /**
   At the granularity of single atomics the promise fails, exactly in these sessions: an
   interrupted query can end with an end record if and only if the session is cancelled at some
   time, or an earlier query of the session had a timeout.
   */
  lemma InterruptedStreamEndsIff(ts: seq<nat>, cancelled: bool, c: Context)
    requires ts != [] && InStream(c)
    ensures (exists actions :: EndsInterrupted(actions, ts, cancelled, c)) <==> cancelled || EarlierTimeout(ts)
  {
    UnexplainedIff(ts, cancelled);
    if actions :| EndsInterrupted(actions, ts, cancelled, c) {
      assert Unexplains(actions, ts, cancelled);
    }
    if cancelled || EarlierTimeout(ts) {
      var actions :| Unexplains(actions, ts, cancelled);
      assert EndsInterrupted(actions, ts, cancelled, c);
    }
  }
}
