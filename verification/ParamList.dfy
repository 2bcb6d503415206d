/**
 The parameters of a statement: what `Decode` makes of the raw `params` text of a request, said
 on syntax trees; and the way of a row from the encoder through a request back to its values.
 */
module ParamList {
  import opened Bytes
  import opened JsonSyntax
  import opened JsonScan
  import opened JsonWriting
  import opened Types
  import opened ParamDecoder
  import opened JsonMeaning
  import opened RequestBody
  import opened ChunkEncoder
  import opened ValueRoundTrip

  /** The type the statement expects of parameter `i`; without expected types every one is ANY. */
  function ParamType(types: seq<LogicalType>, i: nat): LogicalType
    requires types == [] || i < |types|
  {
    if types == [] then Any else types[i]
  }

  lemma {:induction false} ItemOkAt(items: seq<Slot>, i: nat)
    requires ItemsOk(items) && i < |items|
    ensures WellFormedJson(items[i].value)
    decreases i
  {
    if i > 0 { ItemOkAt(items[1..], i - 1); }
  }

  /** What one item of the parameter array means. */
  function ItemMeaning(items: seq<Slot>, i: nat, t: LogicalType, db: Database): Option<Value>
    requires ItemsOk(items) && i < |items|
  {
    ItemOkAt(items, i);
    Meaning(items[i].value, t, db)
  }

  /** As many items as expected, and the value of each is that item read at its own type. */
  predicate ParamsMean(items: seq<Slot>, types: seq<LogicalType>, vs: seq<Value>, db: Database)
    requires ItemsOk(items)
  {
    && (types == [] || |items| == |types|) && |vs| == |items|
    && forall i :: 0 <= i < |items| ==> ItemMeaning(items, i, ParamType(types, i), db) == Some(vs[i])
  }

  // ---- the loop over the items ----

  /** The items from number `index` on, read one after the other. */
  function ItemsRead(items: seq<Slot>, index: nat, types: seq<LogicalType>, db: Database): Option<seq<Value>>
    requires ItemsOk(items)
  {
    if items == [] then Some([])
    else if types != [] && index >= |types| then None
    else Cons(Meaning(items[0].value, ParamType(types, index), db), ItemsRead(items[1..], index + 1, types, db))
  }

  lemma ParamsCons(json: bytes, cur: nat, start: nat, end: nat, last: nat, index: nat, types: seq<LogicalType>, db: Database,
                   v: Option<Value>, vs: Option<seq<Value>>)
    requires !ClosesAt(json, SkipSpace(json, cur), RBRACKET)
    requires NextAt(json, SkipSpace(json, cur), index == 0) == Ok((), start) && (types == [] || index < |types|)
    requires DecodeOneAt(json, start, ParamType(types, index), db) == Lift(v, end)
    requires ParamsAt(json, end, index + 1, types, db) == Lift(vs, last)
    ensures ParamsAt(json, cur, index, types, db) == Lift(Cons(v, vs), last)
  {
  }

  lemma TooMany(json: bytes, cur: nat, start: nat, index: nat, types: seq<LogicalType>, db: Database)
    requires !ClosesAt(json, SkipSpace(json, cur), RBRACKET)
    requires NextAt(json, SkipSpace(json, cur), index == 0) == Ok((), start) && types != [] && index >= |types|
    ensures ParamsAt(json, cur, index, types, db) == Err
  {
  }

  /** The first item: where it is read from, what it means, and where the rest starts. */
  lemma ParamsFirst(json: bytes, cur: nat, pos: nat, items: seq<Slot>, pad: bytes, first: bool, t: LogicalType, db: Database)
    returns (start: nat, v: Option<Value>, end: nat, rest: nat)
    requires items != [] && TailAt(json, pos, items, pad, first) && SkipSpace(json, cur) == SkipSpace(json, pos)
    ensures !ClosesAt(json, SkipSpace(json, cur), RBRACKET) && NextAt(json, SkipSpace(json, cur), first) == Ok((), start)
    ensures WellFormedJson(items[0].value) && v == Meaning(items[0].value, t, db) && DecodeOneAt(json, start, t, db) == Lift(v, end)
    ensures TailAt(json, rest, items[1..], pad, false) && SkipSpace(json, end) == SkipSpace(json, rest)
    ensures TailEnd(rest, items[1..], pad, false) == TailEnd(pos, items, pad, first)
  {
    var at;
    start, at, end, rest := TailStep(json, cur, pos, items, pad, first);
    DecodeFrom(json, start, at, items[0].value, t, db);
    v := Meaning(items[0].value, t, db);
  }

  lemma {:induction false} ParamsAgree(json: bytes, cur: nat, pos: nat, items: seq<Slot>, pad: bytes, index: nat,
                                       types: seq<LogicalType>, db: Database)
    requires TailAt(json, pos, items, pad, index == 0) && SkipSpace(json, cur) == SkipSpace(json, pos)
    ensures ParamsAt(json, cur, index, types, db)
         == Lift(ItemsRead(items, index, types, db), TailEnd(pos, items, pad, index == 0))
    decreases |items|
  {
    if items == [] {
      TailEmpty(json, cur, pos, pad, index == 0);
    } else if types != [] && index >= |types| {
      var start, _, _, _ := TailStep(json, cur, pos, items, pad, index == 0);
      TooMany(json, cur, start, index, types, db);
    } else {
      var start, v, end, rest := ParamsFirst(json, cur, pos, items, pad, index == 0, ParamType(types, index), db);
      var more := items[1..];
      ParamsAgree(json, end, rest, more, pad, index + 1, types, db);
      ParamsCons(json, cur, start, end, TailEnd(pos, items, pad, index == 0), index, types, db,
                 v, ItemsRead(more, index + 1, types, db));
    }
  }

  /** The loop's result, item by item. */
  predicate ReadsAs(items: seq<Slot>, index: nat, types: seq<LogicalType>, vs: seq<Value>, db: Database)
    requires ItemsOk(items)
  {
    && (types == [] || items == [] || index + |items| <= |types|) && |vs| == |items|
    && forall i :: 0 <= i < |items| ==> ItemMeaning(items, i, ParamType(types, index + i), db) == Some(vs[i])
  }

  /** What holds of the items from `index` on holds of the first and of the others. */
  lemma ReadsSplit(items: seq<Slot>, index: nat, types: seq<LogicalType>, vs: seq<Value>, db: Database)
    requires ItemsOk(items) && items != [] && vs != [] && (types == [] || index < |types|)
    ensures ReadsAs(items, index, types, vs, db)
            <==> Meaning(items[0].value, ParamType(types, index), db) == Some(vs[0])
                 && ReadsAs(items[1..], index + 1, types, vs[1..], db)
  {
    var more, rest := items[1..], vs[1..];
    if ReadsAs(items, index, types, vs, db) {
      assert ItemMeaning(items, 0, ParamType(types, index), db) == Some(vs[0]);
      forall i | 0 <= i < |more| ensures ItemMeaning(more, i, ParamType(types, index + 1 + i), db) == Some(rest[i]) {
        assert ItemMeaning(items, i + 1, ParamType(types, index + (i + 1)), db) == Some(vs[i + 1]);
      }
    }
    if Meaning(items[0].value, ParamType(types, index), db) == Some(vs[0]) && ReadsAs(more, index + 1, types, rest, db) {
      forall i | 0 <= i < |items| ensures ItemMeaning(items, i, ParamType(types, index + i), db) == Some(vs[i]) {
        if i > 0 { assert ItemMeaning(more, i - 1, ParamType(types, index + 1 + (i - 1)), db) == Some(rest[i - 1]); }
      }
    }
  }

  lemma ConsIs<A>(v: Option<A>, more: Option<seq<A>>, vs: seq<A>)
    ensures Cons(v, more) == Some(vs) <==> vs != [] && v == Some(vs[0]) && more == Some(vs[1..])
  {
    if vs != [] {
      assert vs == [vs[0]] + vs[1..];
      if v.Some? && more.Some? && [v.value] + more.value == vs {
        assert vs[1..] == ([v.value] + more.value)[1..] == more.value;
      }
    }
  }

  lemma {:induction false} ItemsReadIs(items: seq<Slot>, index: nat, types: seq<LogicalType>, vs: seq<Value>, db: Database)
    requires ItemsOk(items)
    ensures ItemsRead(items, index, types, db) == Some(vs) <==> ReadsAs(items, index, types, vs, db)
    decreases |items|
  {
    if items != [] && (types == [] || index < |types|) {
      ConsIs(Meaning(items[0].value, ParamType(types, index), db), ItemsRead(items[1..], index + 1, types, db), vs);
      if vs != [] {
        ItemsReadIs(items[1..], index + 1, types, vs[1..], db);
        ReadsSplit(items, index, types, vs, db);
      }
    }
  }

  // ---- the whole text ----

  lemma {:induction false} StripKeeps(s: bytes, n: nat)
    requires 0 < n <= |s| && !IsSpace(s[n - 1])
    ensures n <= |StripRight(s)| <= |s| && StripRight(s) == s[..|StripRight(s)|]
    decreases |s|
  {
    if IsSpace(s[|s| - 1]) {
      var shorter := s[..|s| - 1];
      StripKeeps(shorter, n);
      assert shorter[..|StripRight(shorter)|] == s[..|StripRight(shorter)|];
    }
  }

  /** What is left of `text` when the blanks around it are cut off. */
  function Trimmed(text: bytes): bytes { StripRight(text)[SkipSpace(StripRight(text), 0)..] }

  /** A text `t` behind blanks is what the trimmed text starts with. */
  lemma TrimmedStarts(text: bytes, before: bytes, t: bytes)
    requires Blank(before) && At(text, 0, before) && At(text, |before|, t)
    requires t != [] && !IsSpace(t[0]) && !IsSpace(t[|t| - 1])
    ensures At(Trimmed(text), 0, t)
  {
    var n := |before| + |t|;
    AtByte(text, |before|, t, |t| - 1);
    StripKeeps(text, n);
    var right := StripRight(text);
    assert right[..n] == text[..n];
    Carried(text, right, 0, before, n);
    Carried(text, right, |before|, t, n);
    AtByte(right, |before|, t, 0);
    SkipBlank(right, 0, before);
    Shifted(right, |before|, t);
  }

  lemma Carried(a: bytes, b: bytes, pos: nat, t: bytes, n: nat)
    requires n <= |a| && n <= |b| && a[..n] == b[..n] && pos + |t| <= n && At(a, pos, t)
    ensures At(b, pos, t)
  {
    forall k | Offset(k) && 0 <= k < |t| ensures b[pos + k] == t[k] {
      assert a[..n][pos + k] == a[pos + k] && b[..n][pos + k] == b[pos + k];
    }
  }

  lemma Shifted(s: bytes, pos: nat, t: bytes)
    requires At(s, pos, t)
    ensures At(s[pos..], 0, t)
  {
    forall k | Offset(k) && 0 <= k < |t| ensures s[pos..][k] == t[k] {
      assert s[pos + k] == t[k];
    }
  }

  /** The special answer for `[]` is the one the loop would give. */
  lemma DecodeUnfold(text: bytes, types: seq<LogicalType>, db: Database, read: Option<seq<Value>>, end: nat)
    requires Trimmed(text) != [] && Trimmed(text)[0] == LBRACKET
    requires ParamsAt(Trimmed(text), 1, 0, types, db) == Lift(read, end)
    ensures DecodeParams(text, types, db) == if read.Some? && (types == [] || |read.value| == |types|) then read else None
  {
    var json := Trimmed(text);
    assert SkipSpace(json, 0) == 0;
    if json == [LBRACKET, RBRACKET] { assert SkipSpace(json, 1) == 1; }
  }

  lemma NotAnArray(text: bytes, types: seq<LogicalType>, db: Database)
    requires Trimmed(text) != [] && Trimmed(text)[0] != LBRACKET && !IsSpace(Trimmed(text)[0])
    ensures DecodeParams(text, types, db) == None
  {
    assert SkipSpace(Trimmed(text), 0) == 0;
  }

  /**
   The whole of Decode: whatever blanks are in front of the value and whatever is behind it, the
   parameters are accepted exactly when the value is an array with as many items as there are
   expected types, if any are, and each item means a value at its type; and then they are those
   values in order.
   */
  lemma ParamsDecode(text: bytes, before: bytes, j: Json, types: seq<LogicalType>, db: Database, vs: seq<Value>)
    requires WellFormedJson(j) && Blank(before) && At(text, 0, before) && At(text, |before|, JsonSyntax.Text(j))
    ensures DecodeParams(text, types, db) == Some(vs) <==> j.Arr? && ParamsMean(j.items, types, vs, db)
  {
    FirstByte(j);
    if j.Arr? {
      ArrayDecode(text, before, j.items, j.pad, types, db, vs);
    } else {
      var b := JsonSyntax.Text(j)[0];
      AtByte(text, |before|, JsonSyntax.Text(j), 0);
      TrimmedStarts(text, before, [b]);
      AtOne(Trimmed(text), 0, b);
      NotAnArray(text, types, db);
    }
  }

  lemma ArrayDecode(text: bytes, before: bytes, items: seq<Slot>, pad: bytes, types: seq<LogicalType>, db: Database, vs: seq<Value>)
    requires WellFormedJson(Arr(items, pad)) && Blank(before) && At(text, 0, before)
    requires At(text, |before|, JsonSyntax.Text(Arr(items, pad)))
    ensures DecodeParams(text, types, db) == Some(vs) <==> ParamsMean(items, types, vs, db)
  {
    TrimmedStarts(text, before, JsonSyntax.Text(Arr(items, pad)));
    var json := Trimmed(text);
    ArrayTail(json, 0, items, pad);
    ParamsAgree(json, 1, 1, items, pad, 0, types, db);
    DecodeUnfold(text, types, db, ItemsRead(items, 0, types, db), TailEnd(1, items, pad, true));
    ItemsReadIs(items, 0, types, vs, db);
    FromTheStart(items, types, vs, db);
  }

  lemma FromTheStart(items: seq<Slot>, types: seq<LogicalType>, vs: seq<Value>, db: Database)
    requires ItemsOk(items)
    ensures ParamsMean(items, types, vs, db) <==> ReadsAs(items, 0, types, vs, db) && (types == [] || |vs| == |types|)
  {
    if ParamsMean(items, types, vs, db) {
      forall i | 0 <= i < |items| ensures ItemMeaning(items, i, ParamType(types, 0 + i), db) == Some(vs[i]) {
        assert ItemMeaning(items, i, ParamType(types, i), db) == Some(vs[i]);
      }
    }
    if ReadsAs(items, 0, types, vs, db) && (types == [] || |vs| == |types|) {
      forall i | 0 <= i < |items| ensures ItemMeaning(items, i, ParamType(types, i), db) == Some(vs[i]) {
        assert ItemMeaning(items, i, ParamType(types, 0 + i), db) == Some(vs[i]);
      }
    }
  }

  // ---- from the body of a request ----

  lemma {:induction false} LastTextIs(ms: seq<Member>, name: bytes, default: bytes)
    requires MembersOk(ms)
    ensures match LastMember(ms, name)
            case None => LastText(ms, name, default) == default
            case Some(i) => MemberOk(ms[i]) && LastText(ms, name, default) == JsonSyntax.Text(ms[i].slot.value)
  {
    if ms != [] {
      LastTextIs(ms[1..], name, if UnitsValue(ms[0].key) == name then JsonSyntax.Text(ms[0].slot.value) else default);
    }
  }

  /**
   The parser and the decoder together: for every accepted request whose last `params` member is
   `j`, decoding the raw text the parser kept answers what `j` means.
   */
  lemma RequestParams(body: bytes, ws: bytes, ms: seq<Member>, pad: bytes, i: nat, types: seq<LogicalType>, db: Database, vs: seq<Value>)
    requires Blank(ws) && WellFormedJson(Obj(ms, pad)) && At(body, 0, ws) && At(body, |ws|, JsonSyntax.Text(Obj(ms, pad)))
    requires TextMembers(ms) && LastString(ms, SQL_KEY, []) != [] && LastMember(ms, PARAMS_KEY) == Some(i)
    ensures WellFormedJson(ms[i].slot.value) && ParseRequestAt(body).Some?
    ensures var j := ms[i].slot.value;
            DecodeParams(ParseRequestAt(body).value.params, types, db) == Some(vs)
            <==> j.Arr? && ParamsMean(j.items, types, vs, db)
  {
    RequestRoundTrip(body, ws, ms, pad);
    LastTextIs(ms, PARAMS_KEY, []);
    var text := JsonSyntax.Text(ms[i].slot.value);
    WholeText(text);
    ParamsDecode(text, [], ms[i].slot.value, types, db, vs);
  }

  /** A request without `params` is one with no parameters. */
  lemma NoParams(body: bytes, ws: bytes, ms: seq<Member>, pad: bytes, types: seq<LogicalType>, db: Database)
    requires Blank(ws) && WellFormedJson(Obj(ms, pad)) && At(body, 0, ws) && At(body, |ws|, JsonSyntax.Text(Obj(ms, pad)))
    requires TextMembers(ms) && LastString(ms, SQL_KEY, []) != [] && LastMember(ms, PARAMS_KEY) == None
    ensures ParseRequestAt(body).Some?
    ensures DecodeParams(ParseRequestAt(body).value.params, types, db) == if types == [] then Some([]) else None
  {
    RequestRoundTrip(body, ws, ms, pad);
    LastTextIs(ms, PARAMS_KEY, []);
  }

  // ---- a row, there and back ----

  /** The types of the columns of a row. */
  function ColumnTypes(columns: seq<Field>): (types: seq<LogicalType>)
    ensures |types| == |columns| && forall i :: 0 <= i < |columns| ==> types[i] == columns[i].fieldType
  {
    seq(|columns|, i requires 0 <= i < |columns| => columns[i].fieldType)
  }

  /** What the round trip asks of each cell. */
  predicate CellOk(v: Value, t: LogicalType, db: Database) { HasType(v, t) && CleanValue(v) && NamesOk(t) && Builds(db, v, t) }

  predicate CellUnmistakable(v: Value, t: LogicalType) { HasType(v, t) && Unmistakable(v, t) }

  /** What the round trip says of cell `i`. */
  ghost predicate CellComesBack(items: seq<Slot>, i: nat, v: Value, t: LogicalType, db: Database)
    requires ItemsOk(items) && i < |items|
  {
    RoundTrips(ItemMeaning(items, i, t, db), v, CellUnmistakable(v, t), db)
  }

  lemma FirstCell(v: Value, t: LogicalType, more: seq<Slot>, db: Database) returns (items: seq<Slot>)
    requires CellOk(v, t, db) && ItemsOk(more)
    ensures items == [Tight(ToJson(v, t))] + more && ItemsOk(items) && CellComesBack(items, 0, v, t, db)
  {
    TreeRoundTrip(v, t, db);
    items := [Tight(ToJson(v, t))] + more;
    assert items[1..] == more;
  }

  lemma OtherCell(items: seq<Slot>, more: seq<Slot>, i: nat, v: Value, t: LogicalType, db: Database)
    requires items != [] && items[1..] == more && ItemsOk(items) && ItemsOk(more) && 0 < i < |items|
    requires CellComesBack(more, i - 1, v, t, db)
    ensures CellComesBack(items, i, v, t, db)
  {
    assert items[i] == more[i - 1];
  }

  lemma {:induction false} CellsRoundTrip(row: seq<Value>, columns: seq<Field>, db: Database)
    requires FieldsHaveType(row, columns) && forall i :: 0 <= i < |row| ==> CellOk(row[i], columns[i].fieldType, db)
    ensures ItemsOk(CellsJson(row, columns)) && |CellsJson(row, columns)| == |row|
    ensures forall i :: 0 <= i < |row| ==> CellComesBack(CellsJson(row, columns), i, row[i], columns[i].fieldType, db)
    decreases |row|
  {
    if row != [] {
      var rest, others := row[1..], columns[1..];
      assert CellOk(row[0], columns[0].fieldType, db);
      forall i | 0 <= i < |rest| ensures CellOk(rest[i], others[i].fieldType, db) {
        assert CellOk(row[i + 1], columns[i + 1].fieldType, db);
      }
      CellsRoundTrip(rest, others, db);
      var more := CellsJson(rest, others);
      var items := FirstCell(row[0], columns[0].fieldType, more, db);
      assert items[1..] == more;
      forall i | 0 <= i < |row| ensures CellComesBack(items, i, row[i], columns[i].fieldType, db) {
        if i > 0 {
          assert CellComesBack(more, i - 1, rest[i - 1], others[i - 1].fieldType, db);
          OtherCell(items, more, i, row[i], columns[i].fieldType, db);
        }
      }
    }
  }

  /**
   A row, there and back: the array of values the encoder writes for a row, sent as `params` with
   the types of its columns, is decoded as that row, if and only if no STRUCT in it can be
   mistaken for a wrapper and there is no UNION in it.
   */
  lemma RowComesBack(text: bytes, before: bytes, row: seq<Value>, columns: seq<Field>, db: Database)
    requires FieldsHaveType(row, columns) && forall i :: 0 <= i < |row| ==> CellOk(row[i], columns[i].fieldType, db)
    requires Blank(before) && At(text, 0, before) && At(text, |before|, JsonSyntax.Text(RowJson(row, columns)))
    requires NestsNothing(db)
    ensures DecodeParams(text, ColumnTypes(columns), db) == Some(row)
            <==> forall i :: 0 <= i < |row| ==> CellUnmistakable(row[i], columns[i].fieldType)
  {
    CellsRoundTrip(row, columns, db);
    var items, types := CellsJson(row, columns), ColumnTypes(columns);
    SameLength(row, columns);
    ParamsDecode(text, before, RowJson(row, columns), types, db, row);
    if ParamsMean(items, types, row, db) {
      forall i | 0 <= i < |row| ensures CellUnmistakable(row[i], columns[i].fieldType) {
        assert CellComesBack(items, i, row[i], columns[i].fieldType, db);
        assert ItemMeaning(items, i, ParamType(types, i), db) == Some(row[i]);
      }
    }
    if forall i :: 0 <= i < |row| ==> CellUnmistakable(row[i], columns[i].fieldType) {
      forall i | 0 <= i < |items| ensures ItemMeaning(items, i, ParamType(types, i), db) == Some(row[i]) {
        assert CellComesBack(items, i, row[i], columns[i].fieldType, db);
      }
    }
  }

  lemma SameLength(row: seq<Value>, columns: seq<Field>)
    requires FieldsHaveType(row, columns)
    ensures |row| == |columns|
  {
  }
}
