/**
 The typed value encoder and the records of an NDJSON response. The tree of a value is a
 function of the value and its type; the encoder's loops drive the one-flag writer and are
 proved to add exactly that tree to whatever the writer holds.
 */
module ChunkEncoder {
  import opened Bytes
  import opened JsonSyntax
  import opened JsonWriting
  import opened Types

  // ---- values as JSON trees ----

  const JSON_SAFE_MAX := 9007199254740991

  /** Integers a double holds exactly: the others travel as strings. */
  predicate IsJsonSafeInteger(n: int) { -JSON_SAFE_MAX <= n <= JSON_SAFE_MAX }

  /** The integer types whose values are all safe. */
  predicate IsNarrow(id: ScalarId) {
    id.TINYINT? || id.SMALLINT? || id.INTEGER? || id.UTINYINT? || id.USMALLINT? || id.UINTEGER?
  }

  function IntJson(id: ScalarId, n: int): Json {
    if IsNarrow(id) || IsJsonSafeInteger(n) then Num(Bytes.Decimal(n)) else Str(Escaped(Bytes.Decimal(n)))
  }

  /** The tree of a value of type `t`. A MAP is an array of pairs. */
  function ToJson(v: Value, t: LogicalType): Json
    requires HasType(v, t)
    decreases v, 1
  {
    match v
    case Null => Json.Null
    case Bool(b) => if b then True else False
    case Int(n) => IntJson(t.id, n)
    case Text(s) => Str(Escaped(s))
    case Elements(items) => Arr(ItemsJson(items, t.child), [])
    case Row(fields) => Obj(FieldsJson(fields, t.fields), [])
    case Pairs(entries) => Arr(EntriesJson(entries, t.key, t.value), [])
    case Shown(text) => ShownJson(text, t)
    case Interval(months, days, micros) => Obj(IntervalMembers(MONTHS, months, DAYS, days, MICROS, micros), [])
    case Tagged(member, value) =>
      Obj(TaggedMembers(UNION_TAG, t.members[member].name, UNION_VALUE, ToJson(value, t.members[member].fieldType)), [])
  }

  predicate IsFloat(t: LogicalType) { t == LogicalType.Scalar(FLOAT) || t == LogicalType.Scalar(DOUBLE) }

  /** The text form as a string; a finite FLOAT or DOUBLE is a number instead. */
  function ShownJson(text: bytes, t: LogicalType): Json {
    if IsFloat(t) && NumText(text) then Num(text) else Str(Escaped(text))
  }

  const MONTHS := "months"
  const DAYS := "days"
  const MICROS := "micros"

  /** An INTERVAL: microseconds travel as a string. */
  function IntervalMembers(monthsKey: string, months: int, daysKey: string, days: int, microsKey: string, micros: int): seq<Member> {
    [Named(monthsKey, Number(months)), Named(daysKey, Number(days)), Named(microsKey, Quoted(Bytes.Decimal(micros)))]
  }

  const UNION_TAG: bytes := [116, 97, 103]
  const UNION_VALUE: bytes := [118, 97, 108, 117, 101]

  function TaggedMembers(tagKey: bytes, name: bytes, valueKey: bytes, value: Json): seq<Member> {
    [Pair(Escaped(tagKey), Quoted(name)), Pair(Escaped(valueKey), value)]
  }

  function ItemsJson(vs: seq<Value>, child: LogicalType): seq<Slot>
    requires AllHaveType(vs, child)
    decreases vs, 0
  {
    if vs == [] then [] else [Tight(ToJson(vs[0], child))] + ItemsJson(vs[1..], child)
  }

  function FieldsJson(vs: seq<Value>, fields: seq<Field>): seq<Member>
    requires FieldsHaveType(vs, fields)
    decreases vs, 0
  {
    if vs == [] then []
    else [Pair(Escaped(fields[0].name), ToJson(vs[0], fields[0].fieldType))] + FieldsJson(vs[1..], fields[1..])
  }

  function EntryJson(e: Entry, key: LogicalType, value: LogicalType): Json
    requires EntryHasType(e, key, value)
    decreases e, 0
  {
    Arr([Tight(ToJson(e.key, key)), Tight(ToJson(e.value, value))], [])
  }

  function EntriesJson(es: seq<Entry>, key: LogicalType, value: LogicalType): seq<Slot>
    requires EntriesHaveType(es, key, value)
    decreases es, 0
  {
    if es == [] then [] else [Tight(EntryJson(es[0], key, value))] + EntriesJson(es[1..], key, value)
  }

  // ---- the encoder ----

  /** `d` with one more container open. */
  ghost function Opened(d: Doc, c: Container): Doc { d.(open := d.open + [c]) }

  lemma OpenedOk(d: Doc, c: Container)
    requires DocOk(d) && ExpectsValue(d)
    ensures DocOk(Opened(d, c)) && Top(Opened(d, c)) == c && Below(Opened(d, c)) == d
  {
  }

  /** A value added to an open array or to the member of an open object. */
  lemma AddedToOpen(d: Doc, c: Container, j: Json)
    requires DocOk(d) && ExpectsValue(d) && TakesValue(c)
    ensures ExpectsValue(Opened(d, c)) && AddValue(Opened(d, c), j) == Opened(d, WithValue(c, j))
  {
  }

  lemma ClosedInto(w: Writer, d: Doc, c: Container, call: Call)
    requires DocOk(d) && ExpectsValue(d) && Refines(w, Opened(d, c))
    requires (c.OpenArr? && call.EndArray?) || (c.OpenObj? && c.pending.None? && call.EndObject?)
    ensures Refines(Apply(w, call), AddValue(d, Closed(c)))
  {
    OpenedOk(d, c);
    StepRefines(w, Opened(d, c), call);
  }

  method EmitInteger(w: JsonWriter, id: ScalarId, n: int)
    modifies w
    ensures w.State() == Apply(old(w.State()), Leaf(IntJson(id, n)))
  {
    if IsNarrow(id) || IsJsonSafeInteger(n) {
      w.Number(Bytes.Decimal(n));
    } else {
      w.String(Bytes.Decimal(n));
    }
  }

  /** EmitValue adds the tree of `v` to whatever the writer holds. */
  method EmitValue(w: JsonWriter, v: Value, t: LogicalType, ghost d: Doc)
    requires HasType(v, t) && DocOk(d) && ExpectsValue(d) && Refines(w.State(), d)
    modifies w
    ensures Refines(w.State(), AddValue(d, ToJson(v, t)))
    decreases v, 3
  {
    ghost var before := w.State();
    match v
    case Null =>
      w.Null();
      StepRefines(before, d, Leaf(Json.Null));
    case Bool(b) =>
      w.Bool(b);
      StepRefines(before, d, Leaf(if b then True else False));
    case Int(n) =>
      EmitInteger(w, t.id, n);
      StepRefines(before, d, Leaf(IntJson(t.id, n)));
    case Text(s) =>
      w.String(s);
      StepRefines(before, d, Leaf(Str(Escaped(s))));
    case Elements(items) => EmitElements(w, items, t.child, d);
    case Row(fields) =>
      AllFields(fields, t.fields);
      EmitFields(w, fields, t.fields, d);
    case Pairs(entries) => EmitEntries(w, entries, t.key, t.value, d);
    case Shown(text) =>
      EmitShown(w, text, t);
      StepRefines(before, d, Leaf(ShownJson(text, t)));
    case Interval(months, days, micros) =>
      EmitInterval(w, MONTHS, months, DAYS, days, MICROS, micros, d);
    case Tagged(member, value) =>
      EmitTagged(w, UNION_TAG, t.members[member].name, UNION_VALUE, value, t.members[member].fieldType, d);
  }

  /** A text form of the database; Double writes a finite number as it is. */
  method EmitShown(w: JsonWriter, text: bytes, t: LogicalType)
    modifies w
    ensures w.State() == Apply(old(w.State()), Leaf(ShownJson(text, t)))
  {
    if IsFloat(t) && NumText(text) {
      w.Number(text);
    } else {
      w.String(text);
    }
  }

  method EmitInterval(w: JsonWriter, monthsKey: string, months: int, daysKey: string, days: int, microsKey: string, micros: int,
                      ghost d: Doc)
    requires DocOk(d) && ExpectsValue(d) && Refines(w.State(), d)
    modifies w
    ensures Refines(w.State(), AddValue(d, Obj(IntervalMembers(monthsKey, months, daysKey, days, microsKey, micros), [])))
  {
    StepRefines(w.State(), d, Call.BeginObject);
    w.BeginObject();
    ghost var a, b, c := Named(monthsKey, Number(months)), Named(daysKey, Number(days)), Named(microsKey, Quoted(Bytes.Decimal(micros)));
    KeyInt(w, monthsKey, months, d, []);
    KeyInt(w, daysKey, days, d, [] + [a]);
    KeyString(w, microsKey, Bytes.Decimal(micros), d, [] + [a] + [b]);
    ThreeInOrder(a, b, c);
    ClosedInto(w.State(), d, OpenObj([a, b, c], None), Call.EndObject);
    w.EndObject();
  }

  lemma ThreeInOrder(a: Member, b: Member, c: Member)
    ensures [] + [a] + [b] + [c] == [a, b, c]
  {
  }

  /** A UNION: the name of the member it holds, and the value. */
  method EmitTagged(w: JsonWriter, tagKey: bytes, name: bytes, valueKey: bytes, v: Value, t: LogicalType, ghost d: Doc)
    requires HasType(v, t) && DocOk(d) && ExpectsValue(d) && Refines(w.State(), d)
    modifies w
    ensures Refines(w.State(), AddValue(d, Obj(TaggedMembers(tagKey, name, valueKey, ToJson(v, t)), [])))
    decreases v, 5
  {
    StepRefines(w.State(), d, Call.BeginObject);
    w.BeginObject();
    ghost var j := ToJson(v, t);
    ghost var a, b := Pair(Escaped(tagKey), Quoted(name)), Pair(Escaped(valueKey), j);
    EmitKey(w, tagKey, d, []);
    MemberAdded(w.State(), d, [], a.key, Quoted(name));
    w.String(name);
    EmitField(w, valueKey, v, t, d, [] + [a]);
    TwoInOrder(a, b);
    ClosedInto(w.State(), d, OpenObj([a, b], None), Call.EndObject);
    w.EndObject();
  }

  lemma TwoInOrder(a: Member, b: Member)
    ensures [] + [a] + [b] == [a, b]
  {
  }

  method EmitElements(w: JsonWriter, items: seq<Value>, child: LogicalType, ghost d: Doc)
    requires AllHaveType(items, child) && DocOk(d) && ExpectsValue(d) && Refines(w.State(), d)
    modifies w
    ensures Refines(w.State(), AddValue(d, Arr(ItemsJson(items, child), [])))
    decreases items, 2
  {
    StepRefines(w.State(), d, Call.BeginArray);
    w.BeginArray();
    var i := 0;
    ghost var whole, done: seq<Slot> := ItemsJson(items, child), [];
    ghost var left := items;
    while i < |items|
      invariant 0 <= i <= |items| && left == items[i..] && AllHaveType(left, child)
      invariant done + ItemsJson(left, child) == whole
      invariant Refines(w.State(), Opened(d, OpenArr(done)))
    {
      ghost var item, more := ItemsStep(items, i, left, child);
      OpenedOk(d, OpenArr(done));
      AddedToOpen(d, OpenArr(done), item);
      EmitValue(w, items[i], child, Opened(d, OpenArr(done)));
      SeqMove(done, Tight(item), ItemsJson(more, child));
      done, left := done + [Tight(item)], more;
      i := i + 1;
    }
    SeqEnd(done);
    ClosedInto(w.State(), d, OpenArr(done), Call.EndArray);
    w.EndArray();
  }

  lemma ItemsStep(items: seq<Value>, i: nat, left: seq<Value>, child: LogicalType) returns (item: Json, more: seq<Value>)
    requires i < |items| && left == items[i..] && AllHaveType(left, child)
    ensures more == items[i + 1..] && AllHaveType(more, child)
    ensures HasType(items[i], child) && item == ToJson(items[i], child)
    ensures ItemsJson(left, child) == [Tight(item)] + ItemsJson(more, child)
  {
    more := left[1..];
    item := ToJson(left[0], child);
  }

  lemma SeqMove<A>(done: seq<A>, a: A, rest: seq<A>)
    ensures done + ([a] + rest) == done + [a] + rest
  {
  }

  lemma SeqEnd<A>(done: seq<A>)
    ensures done + [] == done
  {
  }

  /** How many fields are emitted: as many as there are both values and fields. */
  function Common(vs: seq<Value>, fields: seq<Field>): (n: nat)
    ensures n <= |vs| && n <= |fields| && (n == |vs| || n == |fields|)
  {
    if |vs| < |fields| then |vs| else |fields|
  }

  lemma AllFields(vs: seq<Value>, fields: seq<Field>)
    requires FieldsHaveType(vs, fields)
    ensures vs[..Common(vs, fields)] == vs && fields[..Common(vs, fields)] == fields
  {
  }

  lemma FieldsStep(vs: seq<Value>, fields: seq<Field>, n: nat, i: nat, left: seq<Value>, rest: seq<Field>, done: seq<Member>)
    returns (m: Member, left': seq<Value>, rest': seq<Field>)
    requires i < n <= |vs| && n <= |fields| && left == vs[i..n] && rest == fields[i..n] && FieldsHaveType(left, rest)
    ensures left' == vs[i + 1..n] && rest' == fields[i + 1..n] && FieldsHaveType(left', rest')
    ensures HasType(vs[i], fields[i].fieldType) && m == Pair(Escaped(fields[i].name), ToJson(vs[i], fields[i].fieldType))
    ensures done + FieldsJson(left, rest) == done + [m] + FieldsJson(left', rest')
  {
    left', rest' := left[1..], rest[1..];
    m := Pair(Escaped(rest[0].name), ToJson(left[0], rest[0].fieldType));
    SeqMove(done, m, FieldsJson(left', rest'));
  }

  /** The fields of a STRUCT; the loop stops at the shorter of values and fields. */
  method EmitFields(w: JsonWriter, vs: seq<Value>, fields: seq<Field>, ghost d: Doc)
    requires FieldsHaveType(vs[..Common(vs, fields)], fields[..Common(vs, fields)])
    requires DocOk(d) && ExpectsValue(d) && Refines(w.State(), d)
    modifies w
    ensures Refines(w.State(), AddValue(d, Obj(FieldsJson(vs[..Common(vs, fields)], fields[..Common(vs, fields)]), [])))
    decreases vs, 2
  {
    var bound := Common(vs, fields);
    StepRefines(w.State(), d, Call.BeginObject);
    w.BeginObject();
    var i := 0;
    ghost var left, rest := vs[..bound], fields[..bound];
    ghost var whole, done: seq<Member> := FieldsJson(left, rest), [];
    while i < bound
      invariant 0 <= i <= bound && left == vs[i..bound] && rest == fields[i..bound] && FieldsHaveType(left, rest)
      invariant done + FieldsJson(left, rest) == whole
      invariant Refines(w.State(), Opened(d, OpenObj(done, None)))
    {
      ghost var m, left', rest' := FieldsStep(vs, fields, bound, i, left, rest, done);
      EmitField(w, fields[i].name, vs[i], fields[i].fieldType, d, done);
      done, left, rest := done + [m], left', rest';
      i := i + 1;
    }
    SeqEnd(done);
    ClosedInto(w.State(), d, OpenObj(done, None), Call.EndObject);
    w.EndObject();
  }

  /** A key and its value in an object that holds the members `done`. */
  method EmitField(w: JsonWriter, name: bytes, v: Value, t: LogicalType, ghost d: Doc, ghost done: seq<Member>)
    requires HasType(v, t) && DocOk(d) && ExpectsValue(d) && Refines(w.State(), Opened(d, OpenObj(done, None)))
    modifies w
    ensures Refines(w.State(), Opened(d, OpenObj(done + [Pair(Escaped(name), ToJson(v, t))], None)))
    decreases v, 4
  {
    EmitKey(w, name, d, done);
    ghost var c := OpenObj(done, Some(Escaped(name)));
    OpenedOk(d, c);
    AddedToOpen(d, c, ToJson(v, t));
    EmitValue(w, v, t, Opened(d, c));
  }

  /** Key in an object that holds the members `done`. */
  method EmitKey(w: JsonWriter, key: bytes, ghost d: Doc, ghost done: seq<Member>)
    requires DocOk(d) && ExpectsValue(d) && Refines(w.State(), Opened(d, OpenObj(done, None)))
    modifies w
    ensures Refines(w.State(), Opened(d, OpenObj(done, Some(Escaped(key)))))
  {
    OpenedOk(d, OpenObj(done, None));
    StepRefines(w.State(), Opened(d, OpenObj(done, None)), Call.Key(Escaped(key)));
    assert Build(Opened(d, OpenObj(done, None)), Call.Key(Escaped(key))) == Opened(d, OpenObj(done, Some(Escaped(key))));
    w.Key(key);
  }

  method EmitEntries(w: JsonWriter, es: seq<Entry>, key: LogicalType, value: LogicalType, ghost d: Doc)
    requires EntriesHaveType(es, key, value) && DocOk(d) && ExpectsValue(d) && Refines(w.State(), d)
    modifies w
    ensures Refines(w.State(), AddValue(d, Arr(EntriesJson(es, key, value), [])))
    decreases es, 2
  {
    StepRefines(w.State(), d, Call.BeginArray);
    w.BeginArray();
    var i := 0;
    ghost var done: seq<Slot> := [];
    ghost var whole := EntriesJson(es, key, value);
    ghost var rest, left := whole, es;
    while i < |es|
      invariant 0 <= i <= |es| && left == es[i..] && EntriesHaveType(left, key, value)
      invariant rest == EntriesJson(left, key, value) && done + rest == whole
      invariant Refines(w.State(), Opened(d, OpenArr(done)))
    {
      ghost var entry, more := EntriesStep(es, i, left, key, value);
      OpenedOk(d, OpenArr(done));
      AddedToOpen(d, OpenArr(done), entry);
      EmitEntry(w, es[i], key, value, Opened(d, OpenArr(done)));
      SeqMove(done, Tight(entry), EntriesJson(more, key, value));
      done, rest, left := done + [Tight(entry)], EntriesJson(more, key, value), more;
      i := i + 1;
    }
    SeqEnd(done);
    ClosedInto(w.State(), d, OpenArr(done), Call.EndArray);
    w.EndArray();
  }

  lemma EntriesStep(es: seq<Entry>, i: nat, left: seq<Entry>, key: LogicalType, value: LogicalType)
    returns (entry: Json, more: seq<Entry>)
    requires i < |es| && left == es[i..] && EntriesHaveType(left, key, value)
    ensures more == es[i + 1..] && EntriesHaveType(more, key, value)
    ensures EntryHasType(es[i], key, value) && entry == EntryJson(es[i], key, value)
    ensures EntriesJson(left, key, value) == [Tight(entry)] + EntriesJson(more, key, value)
  {
    more := left[1..];
    entry := EntryJson(left[0], key, value);
  }

  method EmitEntry(w: JsonWriter, e: Entry, key: LogicalType, value: LogicalType, ghost d: Doc)
    requires EntryHasType(e, key, value) && DocOk(d) && ExpectsValue(d) && Refines(w.State(), d)
    modifies w
    ensures Refines(w.State(), AddValue(d, EntryJson(e, key, value)))
    decreases e, 2
  {
    StepRefines(w.State(), d, Call.BeginArray);
    w.BeginArray();
    ghost var k := Tight(ToJson(e.key, key));
    OpenedOk(d, OpenArr([]));
    AddedToOpen(d, OpenArr([]), k.value);
    EmitValue(w, e.key, key, Opened(d, OpenArr([])));
    assert [] + [k] == [k];
    OpenedOk(d, OpenArr([k]));
    AddedToOpen(d, OpenArr([k]), ToJson(e.value, value));
    EmitValue(w, e.value, value, Opened(d, OpenArr([k])));
    assert [k] + [Tight(ToJson(e.value, value))] == [k, Tight(ToJson(e.value, value))];
    ClosedInto(w.State(), d, OpenArr([k, Tight(ToJson(e.value, value))]), Call.EndArray);
    w.EndArray();
  }

  // ---- records ----

  /** The cells of a row, each with the type of its column. */
  function RowJson(row: seq<Value>, columns: seq<Field>): Json
    requires FieldsHaveType(row, columns)
  {
    Arr(CellsJson(row, columns), [])
  }

  function CellsJson(row: seq<Value>, columns: seq<Field>): seq<Slot>
    requires FieldsHaveType(row, columns)
  {
    if row == [] then [] else [Tight(ToJson(row[0], columns[0].fieldType))] + CellsJson(row[1..], columns[1..])
  }

  predicate ChunkHasType(rows: seq<seq<Value>>, columns: seq<Field>) {
    forall i :: 0 <= i < |rows| ==> FieldsHaveType(rows[i], columns)
  }

  function RowsJson(rows: seq<seq<Value>>, columns: seq<Field>): seq<Slot>
    requires ChunkHasType(rows, columns)
  {
    if rows == [] then []
    else
      assert FieldsHaveType(rows[0], columns);
      [Tight(RowJson(rows[0], columns))] + RowsJson(rows[1..], columns)
  }

  function Named(key: string, value: Json): Member { Pair(Escaped(Ascii(key)), value) }

  function Quoted(s: bytes): Json { Str(Escaped(s)) }

  function Number(n: int): Json { Num(Bytes.Decimal(n)) }

  /** A record: its type member, then the others. */
  function Record(typeKey: string, kind: string, members: seq<Member>): Json {
    Obj([Named(typeKey, Quoted(Ascii(kind)))] + members, [])
  }

  function RowRecord(row: seq<Value>, columns: seq<Field>): Json
    requires FieldsHaveType(row, columns)
  {
    Record("type", "row", [Named("values", RowJson(row, columns))])
  }

  function ChunkRecord(rows: seq<seq<Value>>, columns: seq<Field>): Json
    requires ChunkHasType(rows, columns)
  {
    Record("type", "chunk", [Named("rows", Arr(RowsJson(rows, columns), []))])
  }

  function EndMembers(countKey: string, rowCount: nat, timeKey: string, timeMs: int, truncatedKey: string, truncated: bool)
    : seq<Member>
  {
    [Named(countKey, Number(rowCount)), Named(timeKey, Number(timeMs))]
    + if truncated then [Named(truncatedKey, True)] else []
  }

  function EndRecord(rowCount: nat, timeMs: int, truncated: bool): Json {
    Record("type", "end", EndMembers("rowCount", rowCount, "timeMs", timeMs, "truncated", truncated))
  }

  function ErrorRecord(code: bytes, message: bytes): Json {
    Record("type", "error", [Named("code", Quoted(code)), Named("message", Quoted(message))])
  }

  method EmitValuesArray(w: JsonWriter, row: seq<Value>, columns: seq<Field>, ghost d: Doc)
    requires FieldsHaveType(row, columns) && DocOk(d) && ExpectsValue(d) && Refines(w.State(), d)
    modifies w
    ensures Refines(w.State(), AddValue(d, RowJson(row, columns)))
  {
    StepRefines(w.State(), d, Call.BeginArray);
    w.BeginArray();
    var i := 0;
    ghost var done: seq<Slot> := [];
    assert row[0..] == row && columns[0..] == columns && done + CellsJson(row, columns) == CellsJson(row, columns);
    while i < |columns|
      invariant 0 <= i <= |columns| && FieldsHaveType(row[i..], columns[i..])
      invariant done + CellsJson(row[i..], columns[i..]) == CellsJson(row, columns)
      invariant Refines(w.State(), Opened(d, OpenArr(done)))
    {
      assert row[i..][1..] == row[i + 1..] && columns[i..][1..] == columns[i + 1..];
      OpenedOk(d, OpenArr(done));
      AddedToOpen(d, OpenArr(done), ToJson(row[i], columns[i].fieldType));
      EmitValue(w, row[i], columns[i].fieldType, Opened(d, OpenArr(done)));
      SeqMove(done, Tight(ToJson(row[i], columns[i].fieldType)), CellsJson(row[i + 1..], columns[i + 1..]));
      done := done + [Tight(ToJson(row[i], columns[i].fieldType))];
      i := i + 1;
    }
    assert done == CellsJson(row, columns);
    ClosedInto(w.State(), d, OpenArr(done), Call.EndArray);
    w.EndArray();
  }

  // ---- members of a record under construction ----

  lemma MemberAdded(w: Writer, d: Doc, done: seq<Member>, key: seq<StrUnit>, value: Json)
    requires DocOk(d) && ExpectsValue(d) && Refines(w, Opened(d, OpenObj(done, Some(key))))
    ensures Refines(Apply(w, Leaf(value)), Opened(d, OpenObj(done + [Pair(key, value)], None)))
  {
    var c := OpenObj(done, Some(key));
    OpenedOk(d, c);
    AddedToOpen(d, c, value);
    StepRefines(w, Opened(d, c), Leaf(value));
  }

  method KeyString(w: JsonWriter, key: string, value: bytes, ghost d: Doc, ghost done: seq<Member>)
    requires DocOk(d) && ExpectsValue(d) && Refines(w.State(), Opened(d, OpenObj(done, None)))
    modifies w
    ensures Refines(w.State(), Opened(d, OpenObj(done + [Named(key, Quoted(value))], None)))
  {
    EmitKey(w, Ascii(key), d, done);
    MemberAdded(w.State(), d, done, Escaped(Ascii(key)), Quoted(value));
    w.String(value);
  }

  method KeyInt(w: JsonWriter, key: string, value: int, ghost d: Doc, ghost done: seq<Member>)
    requires DocOk(d) && ExpectsValue(d) && Refines(w.State(), Opened(d, OpenObj(done, None)))
    modifies w
    ensures Refines(w.State(), Opened(d, OpenObj(done + [Named(key, Number(value))], None)))
  {
    EmitKey(w, Ascii(key), d, done);
    MemberAdded(w.State(), d, done, Escaped(Ascii(key)), Number(value));
    w.Number(Bytes.Decimal(value));
  }

  method KeyBool(w: JsonWriter, key: string, value: bool, ghost d: Doc, ghost done: seq<Member>)
    requires DocOk(d) && ExpectsValue(d) && Refines(w.State(), Opened(d, OpenObj(done, None)))
    modifies w
    ensures Refines(w.State(), Opened(d, OpenObj(done + [Named(key, if value then True else False)], None)))
  {
    EmitKey(w, Ascii(key), d, done);
    MemberAdded(w.State(), d, done, Escaped(Ascii(key)), if value then True else False);
    w.Bool(value);
  }

  // ---- records: one line of the response each ----

  lemma EmptyRefines()
    ensures Refines(FRESH, EMPTY_DOC) && DocOk(EMPTY_DOC) && ExpectsValue(EMPTY_DOC)
  {
  }

  lemma RecordText(w: Writer, j: Json)
    requires Refines(w, AddValue(EMPTY_DOC, j))
    ensures w.buf == JsonSyntax.Text(j)
  {
    assert [] + [j] == [j];
    assert RootsText([j]) == RootsText([]) + JsonSyntax.Text(j);
  }

  /** The opening of a record and its type member. */
  method BeginRecord(w: JsonWriter, typeKey: string, kind: string)
    requires w.State() == FRESH
    modifies w
    ensures Refines(w.State(), Opened(EMPTY_DOC, OpenObj([Named(typeKey, Quoted(Ascii(kind)))], None)))
  {
    EmptyRefines();
    StepRefines(w.State(), EMPTY_DOC, Call.BeginObject);
    w.BeginObject();
    KeyString(w, typeKey, Ascii(kind), EMPTY_DOC, []);
    assert [] + [Named(typeKey, Quoted(Ascii(kind)))] == [Named(typeKey, Quoted(Ascii(kind)))];
  }

  method CloseRecord(w: JsonWriter, ghost members: seq<Member>)
    requires Refines(w.State(), Opened(EMPTY_DOC, OpenObj(members, None)))
    modifies w
    ensures w.buf == JsonSyntax.Text(Obj(members, []))
  {
    EmptyRefines();
    ClosedInto(w.State(), EMPTY_DOC, OpenObj(members, None), Call.EndObject);
    w.EndObject();
    RecordText(w.State(), Obj(members, []));
  }

  /** A record whose last key awaits its value. */
  lemma AwaitsValue(done: seq<Member>, key: seq<StrUnit>, value: Json) returns (d: Doc)
    ensures d == Opened(EMPTY_DOC, OpenObj(done, Some(key))) && DocOk(d) && ExpectsValue(d)
    ensures AddValue(d, value) == Opened(EMPTY_DOC, OpenObj(done + [Pair(key, value)], None))
  {
    var c := OpenObj(done, Some(key));
    EmptyRefines();
    OpenedOk(EMPTY_DOC, c);
    AddedToOpen(EMPTY_DOC, c, value);
    d := Opened(EMPTY_DOC, c);
  }

  method EmitRow(w: JsonWriter, row: seq<Value>, columns: seq<Field>)
    requires FieldsHaveType(row, columns) && w.State() == FRESH
    modifies w
    ensures w.buf == JsonSyntax.Text(RowRecord(row, columns))
  {
    EmitRowNamed(w, "type", "row", "values", row, columns);
  }

  method EmitRowNamed(w: JsonWriter, typeKey: string, kind: string, key: string, row: seq<Value>, columns: seq<Field>)
    requires FieldsHaveType(row, columns) && w.State() == FRESH
    modifies w
    ensures w.buf == JsonSyntax.Text(Record(typeKey, kind, [Named(key, RowJson(row, columns))]))
  {
    ghost var done := [Named(typeKey, Quoted(Ascii(kind)))];
    BeginRecord(w, typeKey, kind);
    EmptyRefines();
    EmitKey(w, Ascii(key), EMPTY_DOC, done);
    ghost var cells := RowJson(row, columns);
    ghost var d := AwaitsValue(done, Escaped(Ascii(key)), cells);
    EmitValuesArray(w, row, columns, d);
    CloseRecord(w, done + [Named(key, cells)]);
  }

  method EmitChunk(w: JsonWriter, rows: seq<seq<Value>>, columns: seq<Field>)
    requires ChunkHasType(rows, columns) && w.State() == FRESH
    modifies w
    ensures w.buf == JsonSyntax.Text(ChunkRecord(rows, columns))
  {
    EmitChunkNamed(w, "type", "chunk", "rows", rows, columns);
  }

  method EmitChunkNamed(w: JsonWriter, typeKey: string, kind: string, key: string, rows: seq<seq<Value>>, columns: seq<Field>)
    requires ChunkHasType(rows, columns) && w.State() == FRESH
    modifies w
    ensures w.buf == JsonSyntax.Text(Record(typeKey, kind, [Named(key, Arr(RowsJson(rows, columns), []))]))
  {
    ghost var done := [Named(typeKey, Quoted(Ascii(kind)))];
    ghost var cells := Arr(RowsJson(rows, columns), []);
    BeginRecord(w, typeKey, kind);
    EmptyRefines();
    EmitKey(w, Ascii(key), EMPTY_DOC, done);
    ghost var d := AwaitsValue(done, Escaped(Ascii(key)), cells);
    EmitRows(w, rows, columns, d);
    CloseRecord(w, done + [Named(key, cells)]);
  }

  method EmitRows(w: JsonWriter, rows: seq<seq<Value>>, columns: seq<Field>, ghost d: Doc)
    requires ChunkHasType(rows, columns) && DocOk(d) && ExpectsValue(d) && Refines(w.State(), d)
    modifies w
    ensures Refines(w.State(), AddValue(d, Arr(RowsJson(rows, columns), [])))
  {
    StepRefines(w.State(), d, Call.BeginArray);
    w.BeginArray();
    var i := 0;
    ghost var whole := RowsJson(rows, columns);
    ghost var done: seq<Slot> := [];
    ghost var rest := whole;
    assert rows[0..] == rows;
    while i < |rows|
      invariant 0 <= i <= |rows| && rest == RowsJson(rows[i..], columns)
      invariant done + rest == whole
      invariant Refines(w.State(), Opened(d, OpenArr(done)))
    {
      ghost var row := RowsStep(rows, columns, i);
      OpenedOk(d, OpenArr(done));
      AddedToOpen(d, OpenArr(done), row);
      EmitValuesArray(w, rows[i], columns, Opened(d, OpenArr(done)));
      SeqMove(done, Tight(row), rest[1..]);
      done, rest := done + [Tight(row)], rest[1..];
      i := i + 1;
    }
    SeqEnd(done);
    ClosedInto(w.State(), d, OpenArr(done), Call.EndArray);
    w.EndArray();
  }

  lemma RowsStep(rows: seq<seq<Value>>, columns: seq<Field>, i: nat) returns (row: Json)
    requires ChunkHasType(rows, columns) && i < |rows|
    ensures FieldsHaveType(rows[i], columns) && row == RowJson(rows[i], columns)
    ensures RowsJson(rows[i..], columns) == [Tight(row)] + RowsJson(rows[i + 1..], columns)
  {
    row := RowJson(rows[i], columns);
    assert rows[i..][0] == rows[i] && rows[i..][1..] == rows[i + 1..];
  }

  method EmitEnd(w: JsonWriter, rowCount: nat, timeMs: int, truncated: bool)
    requires w.State() == FRESH
    modifies w
    ensures w.buf == JsonSyntax.Text(EndRecord(rowCount, timeMs, truncated))
  {
    EmitEndNamed(w, "type", "end", "rowCount", rowCount, "timeMs", timeMs, "truncated", truncated);
  }

  method EmitEndNamed(w: JsonWriter, typeKey: string, kind: string, countKey: string, rowCount: nat,
                      timeKey: string, timeMs: int, truncatedKey: string, truncated: bool)
    requires w.State() == FRESH
    modifies w
    ensures w.buf == JsonSyntax.Text(Record(typeKey, kind, EndMembers(countKey, rowCount, timeKey, timeMs, truncatedKey, truncated)))
  {
    ghost var done := [Named(typeKey, Quoted(Ascii(kind)))];
    BeginRecord(w, typeKey, kind);
    EmptyRefines();
    KeyInt(w, countKey, rowCount, EMPTY_DOC, done);
    ghost var counted := done + [Named(countKey, Number(rowCount))];
    KeyInt(w, timeKey, timeMs, EMPTY_DOC, counted);
    ghost var timed := counted + [Named(timeKey, Number(timeMs))];
    EndMembersInOrder(done, countKey, rowCount, timeKey, timeMs, truncatedKey, truncated);
    if truncated {
      KeyBool(w, truncatedKey, true, EMPTY_DOC, timed);
      CloseRecord(w, timed + [Named(truncatedKey, True)]);
    } else {
      CloseRecord(w, timed);
    }
  }

  lemma EndMembersInOrder(done: seq<Member>, countKey: string, rowCount: nat, timeKey: string, timeMs: int,
                          truncatedKey: string, truncated: bool)
    ensures done + EndMembers(countKey, rowCount, timeKey, timeMs, truncatedKey, truncated)
         == done + [Named(countKey, Number(rowCount))] + [Named(timeKey, Number(timeMs))]
            + (if truncated then [Named(truncatedKey, True)] else [])
    ensures !truncated ==>
              done + EndMembers(countKey, rowCount, timeKey, timeMs, truncatedKey, truncated)
              == done + [Named(countKey, Number(rowCount))] + [Named(timeKey, Number(timeMs))]
  {
  }

  method EmitError(w: JsonWriter, code: bytes, message: bytes)
    requires w.State() == FRESH
    modifies w
    ensures w.buf == JsonSyntax.Text(ErrorRecord(code, message))
  {
    EmitErrorNamed(w, "type", "error", "code", code, "message", message);
  }

  method EmitErrorNamed(w: JsonWriter, typeKey: string, kind: string, codeKey: string, code: bytes, messageKey: string, message: bytes)
    requires w.State() == FRESH
    modifies w
    ensures w.buf == JsonSyntax.Text(Record(typeKey, kind, [Named(codeKey, Quoted(code)), Named(messageKey, Quoted(message))]))
  {
    ghost var t, a, b := Named(typeKey, Quoted(Ascii(kind))), Named(codeKey, Quoted(code)), Named(messageKey, Quoted(message));
    BeginRecord(w, typeKey, kind);
    EmptyRefines();
    KeyString(w, codeKey, code, EMPTY_DOC, [t]);
    KeyString(w, messageKey, message, EMPTY_DOC, [t] + [a]);
    ThreeMembers(t, a, b);
    CloseRecord(w, [t] + [a, b]);
  }

  lemma ThreeMembers(t: Member, a: Member, b: Member)
    ensures [t] + [a] + [b] == [t] + [a, b]
  {
  }

  // ---- every record is one line of JSON ----

  lemma DecimalIsNumber(n: int)
    ensures NumText(Bytes.Decimal(n))
  {
  }

  lemma {:induction false} ValueIsCompact(v: Value, t: LogicalType)
    requires HasType(v, t)
    ensures Compact(ToJson(v, t))
    decreases v, 1
  {
    match v
    case Int(n) =>
      DecimalIsNumber(n);
      EscapedClean(Bytes.Decimal(n), 0);
    case Text(s) => EscapedClean(s, 0);
    case Elements(items) => ItemsAreCompact(items, t.child);
    case Row(fields) => FieldsAreCompact(fields, t.fields);
    case Pairs(entries) => EntriesAreCompact(entries, t.key, t.value);
    case Shown(text) => EscapedClean(text, 0);
    case Interval(months, days, micros) => IntervalIsCompact(MONTHS, months, DAYS, days, MICROS, micros);
    case Tagged(member, value) =>
      ValueIsCompact(value, t.members[member].fieldType);
      TaggedIsCompact(UNION_TAG, t.members[member].name, UNION_VALUE, ToJson(value, t.members[member].fieldType));
    case _ =>
  }

  lemma {:induction false} ItemsAreCompact(vs: seq<Value>, child: LogicalType)
    requires AllHaveType(vs, child)
    ensures CompactItems(ItemsJson(vs, child))
    decreases vs, 0
  {
    if vs != [] {
      ValueIsCompact(vs[0], child);
      ItemsAreCompact(vs[1..], child);
      assert ItemsJson(vs, child)[1..] == ItemsJson(vs[1..], child);
    }
  }

  lemma {:induction false} FieldsAreCompact(vs: seq<Value>, fields: seq<Field>)
    requires FieldsHaveType(vs, fields)
    ensures CompactMembers(FieldsJson(vs, fields))
    decreases vs, 0
  {
    if vs != [] {
      EscapedClean(fields[0].name, 0);
      ValueIsCompact(vs[0], fields[0].fieldType);
      FieldsAreCompact(vs[1..], fields[1..]);
      assert FieldsJson(vs, fields)[1..] == FieldsJson(vs[1..], fields[1..]);
    }
  }

  lemma {:induction false} EntriesAreCompact(es: seq<Entry>, key: LogicalType, value: LogicalType)
    requires EntriesHaveType(es, key, value)
    ensures CompactItems(EntriesJson(es, key, value))
    decreases es, 0
  {
    if es != [] {
      EntryIsCompact(es[0], key, value);
      EntriesAreCompact(es[1..], key, value);
      assert EntriesJson(es, key, value)[1..] == EntriesJson(es[1..], key, value);
    }
  }

  lemma {:induction false} EntryIsCompact(e: Entry, key: LogicalType, value: LogicalType)
    requires EntryHasType(e, key, value)
    ensures Compact(EntryJson(e, key, value))
    decreases e, 0
  {
    ValueIsCompact(e.key, key);
    ValueIsCompact(e.value, value);
    PairIsCompact(ToJson(e.key, key), ToJson(e.value, value));
  }

  lemma PairIsCompact(a: Json, b: Json)
    requires Compact(a) && Compact(b)
    ensures Compact(Arr([Tight(a), Tight(b)], []))
  {
    assert [Tight(a), Tight(b)][1..] == [Tight(b)];
    assert CompactItems([Tight(b)]);
  }

  lemma {:induction false} CellsAreCompact(row: seq<Value>, columns: seq<Field>)
    requires FieldsHaveType(row, columns)
    ensures CompactItems(CellsJson(row, columns))
  {
    if row != [] {
      ValueIsCompact(row[0], columns[0].fieldType);
      CellsAreCompact(row[1..], columns[1..]);
      assert CellsJson(row, columns)[1..] == CellsJson(row[1..], columns[1..]);
    }
  }

  lemma {:induction false} RowsAreCompact(rows: seq<seq<Value>>, columns: seq<Field>)
    requires ChunkHasType(rows, columns)
    ensures CompactItems(RowsJson(rows, columns))
  {
    if rows != [] {
      CellsAreCompact(rows[0], columns);
      RowsAreCompact(rows[1..], columns);
      assert RowsJson(rows, columns)[1..] == RowsJson(rows[1..], columns);
    }
  }

  lemma {:induction false} MembersCompact(ms: seq<Member>)
    requires forall i :: 0 <= i < |ms| ==> CompactMember(ms[i])
    ensures CompactMembers(ms)
  {
    if ms != [] {
      assert CompactMember(ms[0]);
      MembersCompact(ms[1..]);
    }
  }

  predicate CompactMember(m: Member) {
    m.before == [] && m.afterKey == [] && m.slot.before == [] && m.slot.after == [] && CleanUnits(m.key) && Compact(m.slot.value)
  }

  lemma NamedCompact(key: string, value: Json)
    requires Compact(value)
    ensures CompactMember(Named(key, value))
  {
    EscapedClean(Ascii(key), 0);
  }

  lemma IntervalIsCompact(monthsKey: string, months: int, daysKey: string, days: int, microsKey: string, micros: int)
    ensures Compact(Obj(IntervalMembers(monthsKey, months, daysKey, days, microsKey, micros), []))
  {
    DecimalIsNumber(months);
    DecimalIsNumber(days);
    EscapedClean(Bytes.Decimal(micros), 0);
    NamedCompact(monthsKey, Number(months));
    NamedCompact(daysKey, Number(days));
    NamedCompact(microsKey, Quoted(Bytes.Decimal(micros)));
    MembersCompact(IntervalMembers(monthsKey, months, daysKey, days, microsKey, micros));
  }

  lemma TaggedIsCompact(tagKey: bytes, name: bytes, valueKey: bytes, value: Json)
    requires Compact(value)
    ensures Compact(Obj(TaggedMembers(tagKey, name, valueKey, value), []))
  {
    EscapedClean(name, 0);
    KeyedCompact(tagKey, Quoted(name));
    KeyedCompact(valueKey, value);
    MembersCompact(TaggedMembers(tagKey, name, valueKey, value));
  }

  lemma KeyedCompact(key: bytes, value: Json)
    requires Compact(value)
    ensures CompactMember(Pair(Escaped(key), value))
  {
    EscapedClean(key, 0);
  }

  /** Framing: a record of compact members is one line of valid UTF-8, with no newline in it. */
  lemma RecordIsOneLine(typeKey: string, kind: string, members: seq<Member>)
    requires forall i :: 0 <= i < |members| ==> CompactMember(members[i])
    ensures Line(JsonSyntax.Text(Record(typeKey, kind, members)))
  {
    EscapedClean(Ascii(kind), 0);
    NamedCompact(typeKey, Quoted(Ascii(kind)));
    MembersCompact([Named(typeKey, Quoted(Ascii(kind)))] + members);
    CompactIsOneLine(Record(typeKey, kind, members));
  }

  lemma {:induction false} RowIsOneLine(row: seq<Value>, columns: seq<Field>)
    requires FieldsHaveType(row, columns)
    ensures Line(JsonSyntax.Text(RowRecord(row, columns)))
  {
    CellsAreCompact(row, columns);
    NamedCompact("values", RowJson(row, columns));
    RecordIsOneLine("type", "row", [Named("values", RowJson(row, columns))]);
  }

  lemma {:induction false} ChunkIsOneLine(rows: seq<seq<Value>>, columns: seq<Field>)
    requires ChunkHasType(rows, columns)
    ensures Line(JsonSyntax.Text(ChunkRecord(rows, columns)))
  {
    RowsAreCompact(rows, columns);
    NamedCompact("rows", Arr(RowsJson(rows, columns), []));
    RecordIsOneLine("type", "chunk", [Named("rows", Arr(RowsJson(rows, columns), []))]);
  }

  lemma EndMembersCompact(countKey: string, rowCount: nat, timeKey: string, timeMs: int, truncatedKey: string, truncated: bool)
    ensures forall m :: m in EndMembers(countKey, rowCount, timeKey, timeMs, truncatedKey, truncated) ==> CompactMember(m)
  {
    DecimalIsNumber(rowCount);
    DecimalIsNumber(timeMs);
    NamedCompact(countKey, Number(rowCount));
    NamedCompact(timeKey, Number(timeMs));
    NamedCompact(truncatedKey, True);
  }

  lemma EndIsOneLine(rowCount: nat, timeMs: int, truncated: bool)
    ensures Line(JsonSyntax.Text(EndRecord(rowCount, timeMs, truncated)))
  {
    EndMembersCompact("rowCount", rowCount, "timeMs", timeMs, "truncated", truncated);
    RecordIsOneLine("type", "end", EndMembers("rowCount", rowCount, "timeMs", timeMs, "truncated", truncated));
  }

  lemma {:induction false} ErrorIsOneLine(code: bytes, message: bytes)
    ensures Line(JsonSyntax.Text(ErrorRecord(code, message)))
  {
    EscapedClean(code, 0);
    EscapedClean(message, 0);
    NamedCompact("code", Quoted(code));
    NamedCompact("message", Quoted(message));
    RecordIsOneLine("type", "error", [Named("code", Quoted(code)), Named("message", Quoted(message))]);
  }

  // ---- a body of records ----

  /** What WriteOneLine sends for these texts: each with a newline behind it. */
  function Lines(texts: seq<bytes>): bytes {
    if texts == [] then [] else texts[0] + [NEWLINE] + Lines(texts[1..])
  }

  /** The index of the first newline from `i` on, or the end. */
  function LineEnd(body: bytes, i: nat): (k: nat)
    requires i <= |body|
    ensures i <= k <= |body|
    decreases |body| - i
  {
    if i == |body| || body[i] == NEWLINE then i else LineEnd(body, i + 1)
  }

  /** What a client reads off: the texts between newlines, and what is left without one. */
  function SplitLines(body: bytes): seq<bytes> {
    if body == [] then []
    else
      var k := LineEnd(body, 0);
      [body[..k]] + if k == |body| then [] else SplitLines(body[k + 1..])
  }

  lemma {:induction false} LineEndFound(text: bytes, rest: bytes, i: nat)
    requires i <= |text| && NEWLINE !in text
    ensures LineEnd(text + [NEWLINE] + rest, i) == |text|
    decreases |text| - i
  {
    if i < |text| {
      assert (text + [NEWLINE] + rest)[i] == text[i] && text[i] in text;
      LineEndFound(text, rest, i + 1);
    }
  }

  lemma FirstLine(text: bytes, rest: bytes)
    requires NEWLINE !in text
    ensures SplitLines(text + [NEWLINE] + rest) == [text] + SplitLines(rest)
  {
    var body := text + [NEWLINE] + rest;
    LineEndFound(text, rest, 0);
    assert body[..|text|] == text && body[|text| + 1..] == rest;
  }

  /** Texts without newlines come apart again as they were. */
  lemma {:induction false} LinesSplit(texts: seq<bytes>)
    requires forall t :: t in texts ==> NEWLINE !in t
    ensures SplitLines(Lines(texts)) == texts
    decreases |texts|
  {
    if texts != [] {
      LinesSplit(texts[1..]);
      FirstLine(texts[0], Lines(texts[1..]));
      assert [texts[0]] + texts[1..] == texts;
    }
  }

  /** A record of a response, by what it is made from. */
  datatype NdjsonRecord =
    | OfRow(row: seq<Value>)
    | OfChunk(rows: seq<seq<Value>>)
    | OfEnd(rowCount: nat, timeMs: int, truncated: bool)
    | OfError(code: bytes, message: bytes)

  predicate Encodes(r: NdjsonRecord, columns: seq<Field>) {
    match r
    case OfRow(row) => FieldsHaveType(row, columns)
    case OfChunk(rows) => ChunkHasType(rows, columns)
    case _ => true
  }

  function NdjsonText(r: NdjsonRecord, columns: seq<Field>): bytes
    requires Encodes(r, columns)
  {
    match r
    case OfRow(row) => JsonSyntax.Text(RowRecord(row, columns))
    case OfChunk(rows) => JsonSyntax.Text(ChunkRecord(rows, columns))
    case OfEnd(rowCount, timeMs, truncated) => JsonSyntax.Text(EndRecord(rowCount, timeMs, truncated))
    case OfError(code, message) => JsonSyntax.Text(ErrorRecord(code, message))
  }

  lemma EveryRecordIsOneLine(r: NdjsonRecord, columns: seq<Field>)
    requires Encodes(r, columns)
    ensures Line(NdjsonText(r, columns)) && NEWLINE !in NdjsonText(r, columns)
  {
    match r
    case OfRow(row) => RowIsOneLine(row, columns);
    case OfChunk(rows) => ChunkIsOneLine(rows, columns);
    case OfEnd(rowCount, timeMs, truncated) => EndIsOneLine(rowCount, timeMs, truncated);
    case OfError(code, message) => ErrorIsOneLine(code, message);
  }

  /** Framing: splitting a body of row, chunk, end and error records at its newlines gives the texts of the records, in order. */
  lemma BodySplitsIntoRecords(records: seq<NdjsonRecord>, columns: seq<Field>, texts: seq<bytes>)
    requires forall i :: 0 <= i < |records| ==> Encodes(records[i], columns)
    requires |texts| == |records| && forall i :: 0 <= i < |records| ==> texts[i] == NdjsonText(records[i], columns)
    ensures SplitLines(Lines(texts)) == texts && forall t :: t in texts ==> Line(t)
  {
    forall t | t in texts ensures Line(t) && NEWLINE !in t {
      var i :| 0 <= i < |texts| && texts[i] == t;
      EveryRecordIsOneLine(records[i], columns);
    }
    LinesSplit(texts);
  }
}
