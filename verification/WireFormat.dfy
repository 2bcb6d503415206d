/**
 The encoder's output as text, said with literals: which escape each byte gets, which values are
 numbers and which are strings, and the records member by member. The encoder builds trees; here
 the text of each tree is spelled out.
 */
module WireFormat {
  import opened Bytes
  import opened Utf8
  import opened Characters
  import opened JsonSyntax
  import opened JsonWriting
  import opened Types
  import opened ChunkEncoder

  // ---- pieces of text ----

  /** The parts with commas between them. */
  function Joined(parts: seq<bytes>): bytes {
    if parts == [] then [] else if |parts| == 1 then parts[0] else parts[0] + Ascii(",") + Joined(parts[1..])
  }

  function Braces(parts: seq<bytes>): bytes { Ascii("{") + Joined(parts) + Ascii("}") }

  function Brackets(parts: seq<bytes>): bytes { Ascii("[") + Joined(parts) + Ascii("]") }

  function InQuotes(s: bytes): bytes { Ascii("\"") + s + Ascii("\"") }

  /** A member whose key is written as it is. */
  function Item(key: string, value: bytes): bytes { InQuotes(Ascii(key)) + Ascii(":") + value }

  lemma Punctuation()
    ensures Ascii("{") == [LBRACE] && Ascii("}") == [RBRACE] && Ascii("[") == [LBRACKET] && Ascii("]") == [RBRACKET]
    ensures Ascii(",") == [COMMA] && Ascii(":") == [COLON] && Ascii("\"") == [QUOTE]
  {
  }

  predicate ItemTexts(items: seq<Slot>, texts: seq<bytes>) {
    |items| == |texts| && forall i :: 0 <= i < |items| ==> SlotText(items[i]) == texts[i]
  }

  predicate MemberTexts(ms: seq<Member>, texts: seq<bytes>) {
    |ms| == |texts| && forall i :: 0 <= i < |ms| ==> MemberText(ms[i]) == texts[i]
  }

  lemma {:induction false} ItemsJoined(items: seq<Slot>, texts: seq<bytes>, first: bool)
    requires ItemTexts(items, texts)
    ensures ItemsText(items, first) == if items == [] then [] else Separator(first) + Joined(texts)
    decreases |items|
  {
    if items != [] {
      ItemsJoined(items[1..], texts[1..], false);
      JoinedStep(Separator(first), texts, ItemsText(items[1..], false));
    }
  }

  lemma {:induction false} MembersJoined(ms: seq<Member>, texts: seq<bytes>, first: bool)
    requires MemberTexts(ms, texts)
    ensures MembersText(ms, first) == if ms == [] then [] else Separator(first) + Joined(texts)
    decreases |ms|
  {
    if ms != [] {
      MembersJoined(ms[1..], texts[1..], false);
      JoinedStep(Separator(first), texts, MembersText(ms[1..], false));
    }
  }

  lemma {:induction false} JoinedStep(before: bytes, texts: seq<bytes>, rest: bytes)
    requires texts != [] && rest == if |texts| == 1 then [] else [COMMA] + Joined(texts[1..])
    ensures before + texts[0] + rest == before + Joined(texts)
  {
    Punctuation();
    if |texts| == 1 {
      assert before + texts[0] + [] == before + texts[0];
    } else {
      assert before + texts[0] + ([COMMA] + Joined(texts[1..])) == before + (texts[0] + [COMMA] + Joined(texts[1..]));
    }
  }

  lemma {:induction false} ArrText(items: seq<Slot>, texts: seq<bytes>)
    requires ItemTexts(items, texts)
    ensures JsonSyntax.Text(Arr(items, [])) == Brackets(texts)
  {
    Punctuation();
    ItemsJoined(items, texts, true);
    assert [LBRACKET] + Joined(texts) + [] + [RBRACKET] == [LBRACKET] + Joined(texts) + [RBRACKET];
  }

  lemma {:induction false} ObjText(ms: seq<Member>, texts: seq<bytes>)
    requires MemberTexts(ms, texts)
    ensures JsonSyntax.Text(Obj(ms, [])) == Braces(texts)
  {
    Punctuation();
    MembersJoined(ms, texts, true);
    assert [LBRACE] + Joined(texts) + [] + [RBRACE] == [LBRACE] + Joined(texts) + [RBRACE];
  }

  // ---- strings ----

  /** Printable ASCII without quotes and backslashes. */
  predicate Verbatim(s: bytes) { forall i :: 0 <= i < |s| ==> 0x20 <= s[i] < 0x80 && s[i] != QUOTE && s[i] != BACKSLASH }

  lemma {:induction false} VerbatimFrom(s: bytes, i: nat)
    requires Verbatim(s) && i <= |s|
    ensures UnitsText(EscapedFrom(s, i)) == s[i..]
    decreases |s| - i
  {
    if i < |s| {
      VerbatimFrom(s, i + 1);
      var rest := EscapedFrom(s, i + 1);
      assert EscapedFrom(s, i) == [Plain(s[i])] + rest;
      assert ([Plain(s[i])] + rest)[1..] == rest;
      assert s[i..] == [s[i]] + s[i + 1..];
    }
  }

  /** Such a string is written as it is. */
  lemma VerbatimText(s: bytes)
    requires Verbatim(s)
    ensures StrText(Escaped(s)) == InQuotes(s)
  {
    Punctuation();
    VerbatimFrom(s, 0);
    assert s[0..] == s;
  }

  lemma NamedText(key: string, value: Json)
    requires Verbatim(Ascii(key))
    ensures MemberText(Named(key, value)) == Item(key, JsonSyntax.Text(value))
  {
    Punctuation();
    VerbatimText(Ascii(key));
    CompactMemberText(Named(key, value));
  }

  lemma NumeralIsVerbatim(n: int)
    ensures Verbatim(Bytes.Decimal(n))
  {
  }

  /** The escapes of section 7 of RFC 8259 that the writer uses: the short ones, and \u00 with two lowercase digits. */
  lemma EscapeForms(s: bytes, i: nat)
    requires i < |s| && s[i] < 0x80
    ensures var b, text := s[i], UnitsText(EscapeUnits(s, i));
            && (b >= 0x20 && !OneOf(b, "\"\\") ==> text == [b])
            && (forall k :: 0 <= k < 7 && b == "\"\\\U{08}\U{0C}\n\r\t"[k] as int ==> text == Ascii("\\") + ["\"\\bfnrt"[k] as int])
            && (b < 0x20 && !OneOf(b, "\U{08}\U{0C}\n\r\t") ==>
                  text == Ascii("\\u00") + ["0123456789abcdef"[b / 16] as int, "0123456789abcdef"[b % 16] as int])
  {
    var b, us := s[i], EscapeUnits(s, i);
    var quotes, controls := "\"\\", "\U{08}\U{0C}\n\r\t";
    assert quotes[0] as int == QUOTE && quotes[1] as int == BACKSLASH;
    assert controls[0] as int == 8 && controls[1] as int == 12;
    assert controls[2] as int == 10 && controls[3] as int == 13 && controls[4] as int == 9;
    assert |us| == 1 && us[1..] == [];
    assert UnitsText(us) == UnitText(us[0]);
    if us[0].Hex? {
      HexForm(b);
    } else if us[0].Esc? {
      EscForm(b);
    }
  }

  lemma EscForm(b: byte)
    requires ShortEscape(b).Some?
    ensures exists k :: 0 <= k < 7 && b == "\"\\\U{08}\U{0C}\n\r\t"[k] as int
    ensures forall k :: 0 <= k < 7 && b == "\"\\\U{08}\U{0C}\n\r\t"[k] as int ==>
                          UnitText(Esc(ShortEscape(b).value)) == Ascii("\\") + ["\"\\bfnrt"[k] as int]
  {
    var bytes, letters := "\"\\\U{08}\U{0C}\n\r\t", "\"\\bfnrt";
    assert bytes[0] == '\"' && bytes[1] == '\\' && bytes[2] as int == 8 && bytes[3] as int == 12;
    assert bytes[4] == '\n' && bytes[5] == '\r' && bytes[6] == '\t';
    assert letters[0] == '\"' && letters[1] == '\\' && letters[2] == 'b' && letters[3] == 'f';
    assert letters[4] == 'n' && letters[5] == 'r' && letters[6] == 't';
    assert Ascii("\\") == [BACKSLASH];
  }

  lemma HexForm(b: byte)
    requires b < 0x20
    ensures UnitText(Hex(ZERO, ZERO, HexDigit(b / 16), HexDigit(b % 16)))
         == Ascii("\\u00") + ["0123456789abcdef"[b / 16] as int, "0123456789abcdef"[b % 16] as int]
  {
    var digits := "0123456789abcdef";
    assert forall v {:trigger digits[v]} :: 0 <= v < 16 ==> digits[v] as int == if v < 10 then 48 + v else 87 + v;
    assert Ascii("\\u00") == [BACKSLASH, 117, ZERO, ZERO];
  }

  // ---- values ----

  /**
   An integer is a number exactly when every double near it is an integer, so that a reader that
   keeps numbers as doubles loses nothing; otherwise it is a string. Either way it is its numeral.
   */
  lemma IntegerForm(n: int, t: LogicalType)
    requires HasType(Int(n), t)
    ensures if -9007199254740991 <= n <= 9007199254740991 then ToJson(Int(n), t) == Num(Bytes.Decimal(n))
            else ToJson(Int(n), t).Str? && JsonSyntax.Text(ToJson(Int(n), t)) == InQuotes(Bytes.Decimal(n))
  {
    NumeralIsVerbatim(n);
    VerbatimText(Bytes.Decimal(n));
  }

  /** NULL, truth values, strings, and the text forms, of which only a finite FLOAT or DOUBLE is a number. */
  lemma ScalarForms(v: Value, t: LogicalType)
    requires HasType(v, t)
    ensures var text := JsonSyntax.Text(ToJson(v, t));
            && (v.Null? ==> text == Ascii("null"))
            && (v.Bool? ==> text == if v.b then Ascii("true") else Ascii("false"))
            && (v.Text? ==> text == StrText(Escaped(v.s)))
            && (v.Shown? && t.Scalar? && t.id in {FLOAT, DOUBLE} && NumText(v.text) ==> text == v.text)
            && (v.Shown? && !(t.Scalar? && t.id in {FLOAT, DOUBLE} && NumText(v.text)) ==> text == StrText(Escaped(v.text)))
  {
    JsonWords();
  }

  /** The texts of the elements of a LIST or ARRAY, each at the element type. */
  function ElementTexts(vs: seq<Value>, t: LogicalType): (r: seq<bytes>)
    requires AllHaveType(vs, t)
    ensures |r| == |vs|
  {
    if vs == [] then [] else [JsonSyntax.Text(ToJson(vs[0], t))] + ElementTexts(vs[1..], t)
  }

  lemma TightText(j: Json)
    ensures SlotText(Tight(j)) == JsonSyntax.Text(j)
  {
    assert [] + JsonSyntax.Text(j) + [] == JsonSyntax.Text(j);
  }

  lemma {:induction false} ElementsHaveTexts(vs: seq<Value>, t: LogicalType)
    requires AllHaveType(vs, t)
    ensures ItemTexts(ItemsJson(vs, t), ElementTexts(vs, t))
  {
    if vs != [] {
      ElementsHaveTexts(vs[1..], t);
      TightText(ToJson(vs[0], t));
    }
  }

  /** A LIST or ARRAY is an array. */
  lemma {:induction false} ListForm(vs: seq<Value>, t: LogicalType)
    requires (t.List? || t.Array?) && HasType(Elements(vs), t)
    ensures JsonSyntax.Text(ToJson(Elements(vs), t)) == Brackets(ElementTexts(vs, t.child))
  {
    ElementsHaveTexts(vs, t.child);
    ArrText(ItemsJson(vs, t.child), ElementTexts(vs, t.child));
  }

  /** The texts of the members of a STRUCT, or of the cells of a row with the names of its columns. */
  function FieldTexts(vs: seq<Value>, fields: seq<Field>): (r: seq<bytes>)
    requires FieldsHaveType(vs, fields)
    ensures |r| == |vs|
  {
    if vs == [] then []
    else
      [StrText(Escaped(fields[0].name)) + Ascii(":") + JsonSyntax.Text(ToJson(vs[0], fields[0].fieldType))]
      + FieldTexts(vs[1..], fields[1..])
  }

  lemma {:induction false} FieldsHaveTexts(vs: seq<Value>, fields: seq<Field>)
    requires FieldsHaveType(vs, fields)
    ensures MemberTexts(FieldsJson(vs, fields), FieldTexts(vs, fields))
    decreases |vs|
  {
    if vs != [] {
      FieldsHaveTexts(vs[1..], fields[1..]);
      Punctuation();
      CompactMemberText(Pair(Escaped(fields[0].name), ToJson(vs[0], fields[0].fieldType)));
    }
  }

  /** A STRUCT is an object of its fields, in their order. */
  lemma {:induction false} StructForm(vs: seq<Value>, t: LogicalType)
    requires t.Struct? && HasType(Row(vs), t)
    ensures JsonSyntax.Text(ToJson(Row(vs), t)) == Braces(FieldTexts(vs, t.fields))
  {
    FieldsHaveTexts(vs, t.fields);
    ObjText(FieldsJson(vs, t.fields), FieldTexts(vs, t.fields));
  }

  /** The texts of the entries of a MAP: pairs in brackets. */
  function EntryTexts(es: seq<Entry>, key: LogicalType, value: LogicalType): (r: seq<bytes>)
    requires EntriesHaveType(es, key, value)
    ensures |r| == |es|
  {
    if es == [] then []
    else
      assert EntryHasType(es[0], key, value);
      [Brackets([JsonSyntax.Text(ToJson(es[0].key, key)), JsonSyntax.Text(ToJson(es[0].value, value))])]
      + EntryTexts(es[1..], key, value)
  }

  lemma EntryText(e: Entry, key: LogicalType, value: LogicalType)
    requires EntryHasType(e, key, value)
    ensures JsonSyntax.Text(EntryJson(e, key, value))
         == Brackets([JsonSyntax.Text(ToJson(e.key, key)), JsonSyntax.Text(ToJson(e.value, value))])
  {
    var k, v := ToJson(e.key, key), ToJson(e.value, value);
    TightText(k);
    TightText(v);
    ArrText([Tight(k), Tight(v)], [JsonSyntax.Text(k), JsonSyntax.Text(v)]);
  }

  lemma {:induction false} EntriesHaveTexts(es: seq<Entry>, key: LogicalType, value: LogicalType)
    requires EntriesHaveType(es, key, value)
    ensures ItemTexts(EntriesJson(es, key, value), EntryTexts(es, key, value))
    decreases |es|
  {
    if es != [] {
      EntriesHaveTexts(es[1..], key, value);
      EntryText(es[0], key, value);
      TightText(EntryJson(es[0], key, value));
    }
  }

  /** A MAP is an array of pairs, not an object. */
  lemma {:induction false} MapForm(es: seq<Entry>, t: LogicalType)
    requires t.Map? && HasType(Pairs(es), t)
    ensures JsonSyntax.Text(ToJson(Pairs(es), t)) == Brackets(EntryTexts(es, t.key, t.value))
  {
    EntriesHaveTexts(es, t.key, t.value);
    ArrText(EntriesJson(es, t.key, t.value), EntryTexts(es, t.key, t.value));
  }

  /** An INTERVAL: the microseconds are a string. */
  lemma IntervalForm(months: int, days: int, micros: int, j: Json)
    requires j == ToJson(Interval(months, days, micros), LogicalType.Scalar(INTERVAL))
    ensures MONTHS == "months" && DAYS == "days" && MICROS == "micros"
    ensures JsonSyntax.Text(j)
         == Braces([Item(MONTHS, Bytes.Decimal(months)), Item(DAYS, Bytes.Decimal(days)),
                    Item(MICROS, InQuotes(Bytes.Decimal(micros)))])
  {
    IntervalKeys();
    IntervalNamed(MONTHS, months, DAYS, days, MICROS, micros, j);
  }

  lemma IntervalNamed(monthsKey: string, months: int, daysKey: string, days: int, microsKey: string, micros: int, j: Json)
    requires j == Obj(IntervalMembers(monthsKey, months, daysKey, days, microsKey, micros), [])
    requires Verbatim(Ascii(monthsKey)) && Verbatim(Ascii(daysKey)) && Verbatim(Ascii(microsKey))
    ensures JsonSyntax.Text(j)
         == Braces([Item(monthsKey, Bytes.Decimal(months)), Item(daysKey, Bytes.Decimal(days)),
                    Item(microsKey, InQuotes(Bytes.Decimal(micros)))])
  {
    NumeralIsVerbatim(micros);
    VerbatimText(Bytes.Decimal(micros));
    ThreeMembersText(monthsKey, Number(months), daysKey, Number(days), microsKey, Quoted(Bytes.Decimal(micros)));
  }

  /** A literal of printable ASCII without quotes and backslashes. */
  predicate PlainKey(key: string) {
    forall i :: 0 <= i < |key| ==> 32 <= key[i] as int < 127 && key[i] as int != 34 && key[i] as int != 92
  }

  lemma PlainKeyIsVerbatim(key: string)
    requires PlainKey(key)
    ensures Verbatim(Ascii(key))
  {
  }

  lemma IntervalKeys()
    ensures Verbatim(Ascii(MONTHS)) && Verbatim(Ascii(DAYS)) && Verbatim(Ascii(MICROS))
  {
    assert PlainKey("months") && PlainKey("days") && PlainKey("micros");
    PlainKeyIsVerbatim("months");
    PlainKeyIsVerbatim("days");
    PlainKeyIsVerbatim("micros");
  }

  lemma TagKeys()
    ensures Verbatim(Ascii("tag")) && Verbatim(Ascii("value"))
  {
  }

  lemma DataKeys()
    ensures Verbatim(Ascii("type")) && Verbatim(Ascii("row")) && Verbatim(Ascii("values"))
    ensures Verbatim(Ascii("chunk")) && Verbatim(Ascii("rows"))
  {
    assert PlainKey("type") && PlainKey("row") && PlainKey("values") && PlainKey("chunk") && PlainKey("rows");
    PlainKeyIsVerbatim("type");
    PlainKeyIsVerbatim("row");
    PlainKeyIsVerbatim("values");
    PlainKeyIsVerbatim("chunk");
    PlainKeyIsVerbatim("rows");
  }

  lemma EndKeys()
    ensures Verbatim(Ascii("type")) && Verbatim(Ascii("end")) && Verbatim(Ascii("rowCount")) && Verbatim(Ascii("timeMs"))
    ensures Verbatim(Ascii("truncated"))
  {
    assert PlainKey("type") && PlainKey("end") && PlainKey("rowCount") && PlainKey("timeMs") && PlainKey("truncated");
    PlainKeyIsVerbatim("type");
    PlainKeyIsVerbatim("end");
    PlainKeyIsVerbatim("rowCount");
    PlainKeyIsVerbatim("timeMs");
    PlainKeyIsVerbatim("truncated");
  }

  lemma ErrorKeys()
    ensures Verbatim(Ascii("type")) && Verbatim(Ascii("error")) && Verbatim(Ascii("code")) && Verbatim(Ascii("message"))
  {
    assert PlainKey("type") && PlainKey("error") && PlainKey("code") && PlainKey("message");
    PlainKeyIsVerbatim("type");
    PlainKeyIsVerbatim("error");
    PlainKeyIsVerbatim("code");
    PlainKeyIsVerbatim("message");
  }

  lemma TwoMembersText(key1: string, value1: Json, key2: string, value2: Json)
    requires Verbatim(Ascii(key1)) && Verbatim(Ascii(key2))
    ensures JsonSyntax.Text(Obj([Named(key1, value1), Named(key2, value2)], []))
         == Braces([Item(key1, JsonSyntax.Text(value1)), Item(key2, JsonSyntax.Text(value2))])
  {
    NamedText(key1, value1);
    NamedText(key2, value2);
    ObjText([Named(key1, value1), Named(key2, value2)], [Item(key1, JsonSyntax.Text(value1)), Item(key2, JsonSyntax.Text(value2))]);
  }

  lemma ThreeMembersText(key1: string, value1: Json, key2: string, value2: Json, key3: string, value3: Json)
    requires Verbatim(Ascii(key1)) && Verbatim(Ascii(key2)) && Verbatim(Ascii(key3))
    ensures JsonSyntax.Text(Obj([Named(key1, value1), Named(key2, value2), Named(key3, value3)], []))
         == Braces([Item(key1, JsonSyntax.Text(value1)), Item(key2, JsonSyntax.Text(value2)), Item(key3, JsonSyntax.Text(value3))])
  {
    NamedText(key1, value1);
    NamedText(key2, value2);
    NamedText(key3, value3);
    ObjText([Named(key1, value1), Named(key2, value2), Named(key3, value3)],
            [Item(key1, JsonSyntax.Text(value1)), Item(key2, JsonSyntax.Text(value2)), Item(key3, JsonSyntax.Text(value3))]);
  }

  lemma FourMembersText(key1: string, value1: Json, key2: string, value2: Json, key3: string, value3: Json, key4: string, value4: Json)
    requires Verbatim(Ascii(key1)) && Verbatim(Ascii(key2)) && Verbatim(Ascii(key3)) && Verbatim(Ascii(key4))
    ensures JsonSyntax.Text(Obj([Named(key1, value1), Named(key2, value2), Named(key3, value3), Named(key4, value4)], []))
         == Braces([Item(key1, JsonSyntax.Text(value1)), Item(key2, JsonSyntax.Text(value2)), Item(key3, JsonSyntax.Text(value3)),
                    Item(key4, JsonSyntax.Text(value4))])
  {
    NamedText(key1, value1);
    NamedText(key2, value2);
    NamedText(key3, value3);
    NamedText(key4, value4);
    ObjText([Named(key1, value1), Named(key2, value2), Named(key3, value3), Named(key4, value4)],
            [Item(key1, JsonSyntax.Text(value1)), Item(key2, JsonSyntax.Text(value2)), Item(key3, JsonSyntax.Text(value3)),
             Item(key4, JsonSyntax.Text(value4))]);
  }

  /** A UNION: the name of the member it holds, and its value at the type of that member. */
  lemma UnionForm(member: nat, value: Value, t: LogicalType)
    requires t.Union? && HasType(Tagged(member, value), t)
    ensures JsonSyntax.Text(ToJson(Tagged(member, value), t))
         == Braces([Item("tag", StrText(Escaped(t.members[member].name))),
                    Item("value", JsonSyntax.Text(ToJson(value, t.members[member].fieldType)))])
  {
    TagKeys();
    assert Ascii("tag") == UNION_TAG && Ascii("value") == UNION_VALUE;
    TwoMembersText("tag", Quoted(t.members[member].name), "value", ToJson(value, t.members[member].fieldType));
  }

  // ---- records ----

  /** The texts of the cells of a row, each at the type of its column. */
  function CellTexts(row: seq<Value>, columns: seq<Field>): (r: seq<bytes>)
    requires FieldsHaveType(row, columns)
    ensures |r| == |row|
  {
    if row == [] then []
    else [JsonSyntax.Text(ToJson(row[0], columns[0].fieldType))] + CellTexts(row[1..], columns[1..])
  }

  lemma {:induction false} CellsHaveTexts(row: seq<Value>, columns: seq<Field>)
    requires FieldsHaveType(row, columns)
    ensures ItemTexts(CellsJson(row, columns), CellTexts(row, columns))
    decreases |row|
  {
    if row != [] {
      CellsHaveTexts(row[1..], columns[1..]);
      TightText(ToJson(row[0], columns[0].fieldType));
    }
  }

  lemma {:induction false} CellsForm(row: seq<Value>, columns: seq<Field>)
    requires FieldsHaveType(row, columns)
    ensures JsonSyntax.Text(RowJson(row, columns)) == Brackets(CellTexts(row, columns))
  {
    CellsHaveTexts(row, columns);
    ArrText(CellsJson(row, columns), CellTexts(row, columns));
  }

  lemma {:induction false} OneMemberRecord(kind: string, key: string, value: Json)
    requires Verbatim(Ascii("type")) && Verbatim(Ascii(kind)) && Verbatim(Ascii(key))
    ensures JsonSyntax.Text(Record("type", kind, [Named(key, value)]))
         == Braces([Item("type", InQuotes(Ascii(kind))), Item(key, JsonSyntax.Text(value))])
  {
    VerbatimText(Ascii(kind));
    TwoMembersText("type", Quoted(Ascii(kind)), key, value);
  }

  lemma {:induction false} RowForm(row: seq<Value>, columns: seq<Field>)
    requires FieldsHaveType(row, columns)
    ensures JsonSyntax.Text(RowRecord(row, columns))
         == Braces([Item("type", InQuotes(Ascii("row"))), Item("values", Brackets(CellTexts(row, columns)))])
  {
    CellsForm(row, columns);
    DataKeys();
    OneMemberRecord("row", "values", RowJson(row, columns));
  }

  function RowTexts(rows: seq<seq<Value>>, columns: seq<Field>): (r: seq<bytes>)
    requires ChunkHasType(rows, columns)
    ensures |r| == |rows| && forall i :: 0 <= i < |rows| ==> r[i] == Brackets(CellTexts(rows[i], columns))
  {
    seq(|rows|, i requires 0 <= i < |rows| => Brackets(CellTexts(rows[i], columns)))
  }

  lemma {:induction false} RowsHaveTexts(rows: seq<seq<Value>>, columns: seq<Field>)
    requires ChunkHasType(rows, columns)
    ensures ItemTexts(RowsJson(rows, columns), RowTexts(rows, columns))
    decreases |rows|
  {
    if rows != [] {
      assert FieldsHaveType(rows[0], columns);
      RowsHaveTexts(rows[1..], columns);
      assert RowTexts(rows, columns)[1..] == RowTexts(rows[1..], columns);
      CellsForm(rows[0], columns);
      TightText(RowJson(rows[0], columns));
    }
  }

  lemma {:induction false} ChunkForm(rows: seq<seq<Value>>, columns: seq<Field>)
    requires ChunkHasType(rows, columns)
    ensures JsonSyntax.Text(ChunkRecord(rows, columns))
         == Braces([Item("type", InQuotes(Ascii("chunk"))), Item("rows", Brackets(RowTexts(rows, columns)))])
  {
    RowsHaveTexts(rows, columns);
    ArrText(RowsJson(rows, columns), RowTexts(rows, columns));
    DataKeys();
    OneMemberRecord("chunk", "rows", Arr(RowsJson(rows, columns), []));
  }

  lemma EndForm(rowCount: nat, timeMs: int, truncated: bool)
    ensures JsonSyntax.Text(EndRecord(rowCount, timeMs, truncated))
         == if truncated
            then Braces([Item("type", InQuotes(Ascii("end"))), Item("rowCount", Bytes.Decimal(rowCount)),
                         Item("timeMs", Bytes.Decimal(timeMs)), Item("truncated", Ascii("true"))])
            else Braces([Item("type", InQuotes(Ascii("end"))), Item("rowCount", Bytes.Decimal(rowCount)),
                         Item("timeMs", Bytes.Decimal(timeMs))])
  {
    EndKeys();
    JsonWords();
    EndNamed("type", "end", "rowCount", rowCount, "timeMs", timeMs, "truncated", truncated);
  }

  lemma EndNamed(typeKey: string, kind: string, countKey: string, rowCount: nat, timeKey: string, timeMs: int,
                 truncatedKey: string, truncated: bool)
    requires Verbatim(Ascii(typeKey)) && Verbatim(Ascii(kind)) && Verbatim(Ascii(countKey)) && Verbatim(Ascii(timeKey))
    requires Verbatim(Ascii(truncatedKey))
    ensures JsonSyntax.Text(Record(typeKey, kind, EndMembers(countKey, rowCount, timeKey, timeMs, truncatedKey, truncated)))
         == if truncated
            then Braces([Item(typeKey, InQuotes(Ascii(kind))), Item(countKey, Bytes.Decimal(rowCount)),
                         Item(timeKey, Bytes.Decimal(timeMs)), Item(truncatedKey, TRUE_TEXT)])
            else Braces([Item(typeKey, InQuotes(Ascii(kind))), Item(countKey, Bytes.Decimal(rowCount)),
                         Item(timeKey, Bytes.Decimal(timeMs))])
  {
    VerbatimText(Ascii(kind));
    ThreeMembersText(typeKey, Quoted(Ascii(kind)), countKey, Number(rowCount), timeKey, Number(timeMs));
    FourMembersText(typeKey, Quoted(Ascii(kind)), countKey, Number(rowCount), timeKey, Number(timeMs), truncatedKey, True);
    var first := [Named(typeKey, Quoted(Ascii(kind)))];
    var counts := [Named(countKey, Number(rowCount)), Named(timeKey, Number(timeMs))];
    assert counts + [] == counts;
    assert first + counts == [first[0], counts[0], counts[1]];
    assert first + (counts + [Named(truncatedKey, True)]) == [first[0], counts[0], counts[1], Named(truncatedKey, True)];
  }

  lemma ErrorForm(code: bytes, message: bytes)
    ensures JsonSyntax.Text(ErrorRecord(code, message))
         == Braces([Item("type", InQuotes(Ascii("error"))), Item("code", StrText(Escaped(code))),
                    Item("message", StrText(Escaped(message)))])
  {
    ErrorKeys();
    ErrorNamed("type", "error", "code", code, "message", message);
  }

  lemma ErrorNamed(typeKey: string, kind: string, codeKey: string, code: bytes, messageKey: string, message: bytes)
    requires Verbatim(Ascii(typeKey)) && Verbatim(Ascii(kind)) && Verbatim(Ascii(codeKey)) && Verbatim(Ascii(messageKey))
    ensures JsonSyntax.Text(Record(typeKey, kind, [Named(codeKey, Quoted(code)), Named(messageKey, Quoted(message))]))
         == Braces([Item(typeKey, InQuotes(Ascii(kind))), Item(codeKey, StrText(Escaped(code))),
                    Item(messageKey, StrText(Escaped(message)))])
  {
    VerbatimText(Ascii(kind));
    ThreeMembersText(typeKey, Quoted(Ascii(kind)), codeKey, Quoted(code), messageKey, Quoted(message));
    var first, others := [Named(typeKey, Quoted(Ascii(kind)))], [Named(codeKey, Quoted(code)), Named(messageKey, Quoted(message))];
    assert first + others == [first[0], others[0], others[1]];
  }
}
