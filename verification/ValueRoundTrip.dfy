/**
 The typed round trip: what the encoder writes for a value, the parameter decoder reads
 back as that value, exactly when no STRUCT in it can be mistaken for a Mode B wrapper.
 */
module ValueRoundTrip {
  import opened Bytes
  import opened Utf8
  import opened JsonSyntax
  import opened JsonScan
  import opened JsonWriting
  import opened Types
  import opened ParamDecoder
  import opened JsonMeaning
  import opened ChunkEncoder
  import opened WireFormat
  import opened TypeRoundTrip
  import opened TypeNames
  import TypeParser

  // ---- what the round trip needs of the database, the type and the value ----

  /** Conversion reads the decimal numeral of `n` as an integer of type `id`. */
  predicate ReadsInt(db: Database, id: ScalarId, n: int) {
    db.convert(Value.Text(Bytes.Decimal(n)), LogicalType.Scalar(id)) == Some(Int(n))
  }

  /**
   The database can build `v` at type `t`: it reads its integers and its own text forms, and
   assembles its nested values as they are.
   */
  predicate Builds(db: Database, v: Value, t: LogicalType)
    requires HasType(v, t)
    decreases v, 1
  {
    match v
    case Int(n) => ReadsInt(db, t.id, n)
    case Elements(items) => db.convert(v, t) == Some(v) && BuildsAll(db, items, t.child)
    case Row(fields) => db.convert(v, t) == Some(v) && BuildsFields(db, fields, t.fields)
    case Pairs(entries) => db.convert(v, t) == Some(v) && BuildsEntries(db, entries, t.key, t.value)
    case Shown(text) => db.convert(Value.Text(text), t) == Some(v)
    case Tagged(member, value) => Builds(db, value, t.members[member].fieldType)
    case _ => true
  }

  predicate BuildsAll(db: Database, vs: seq<Value>, t: LogicalType)
    requires AllHaveType(vs, t)
    decreases vs, 0
  {
    vs == [] || (Builds(db, vs[0], t) && BuildsAll(db, vs[1..], t))
  }

  predicate BuildsFields(db: Database, vs: seq<Value>, fields: seq<Field>)
    requires FieldsHaveType(vs, fields)
    decreases vs, 0
  {
    vs == [] || (Builds(db, vs[0], fields[0].fieldType) && BuildsFields(db, vs[1..], fields[1..]))
  }

  predicate BuildsEntry(db: Database, e: Entry, key: LogicalType, value: LogicalType)
    requires EntryHasType(e, key, value)
    decreases e, 0
  {
    Builds(db, e.key, key) && Builds(db, e.value, value)
  }

  predicate BuildsEntries(db: Database, es: seq<Entry>, key: LogicalType, value: LogicalType)
    requires EntriesHaveType(es, key, value)
    decreases es, 0
  {
    es == [] || (BuildsEntry(db, es[0], key, value) && BuildsEntries(db, es[1..], key, value))
  }

  predicate IsScalarValue(v: Value) { !v.Elements? && !v.Row? && !v.Pairs? && !v.Tagged? }

  predicate KeepsOrScalar(x: Value, y: Option<Value>) { y.None? || y.value == x || IsScalarValue(y.value) }

  /** Names a conversion. The solver looks at what a conversion builds only where a proof names it. */
  predicate Asked(x: Value, t: LogicalType) { true }

  /** Conversion makes no nested value out of another value. */
  ghost predicate NestsNothing(db: Database) {
    && (forall x, t {:trigger Asked(x, t)} :: Asked(x, t) ==> KeepsOrScalar(x, db.convert(x, t)))
    && (forall s :: db.stod(s).Some? ==> IsScalarValue(db.stod(s).value))
  }

  /** The strings of a value are valid UTF-8. */
  predicate CleanValue(v: Value)
    decreases v
  {
    match v
    case Text(s) => WellFormed(s)
    case Shown(text) => WellFormed(text)
    case Tagged(_, value) => CleanValue(value)
    case Elements(items) => forall x :: x in items ==> CleanValue(x)
    case Row(fields) => forall x :: x in fields ==> CleanValue(x)
    case Pairs(entries) => forall e :: e in entries ==> CleanValue(e.key) && CleanValue(e.value)
    case _ => true
  }

  predicate NamesDiffer(fields: seq<Field>) {
    && (forall i :: 0 <= i < |fields| ==> WellFormed(fields[i].name))
    && (forall i, j :: 0 <= i < j < |fields| ==> Lower(fields[i].name) != Lower(fields[j].name))
  }

  /**
   The types whose round trip is claimed: all without INTERVAL, with STRUCT field names that are
   valid UTF-8 and differ ignoring case, and UNION member names that are valid UTF-8.
   */
  predicate NamesOk(t: LogicalType)
    decreases t
  {
    match t
    case List(child) => NamesOk(child)
    case Array(child, _) => NamesOk(child)
    case Map(key, value) => NamesOk(key) && NamesOk(value)
    case Struct(fields) => NamesDiffer(fields) && forall f :: f in fields ==> NamesOk(f.fieldType)
    case Union(members) => forall m :: m in members ==> WellFormed(m.name) && NamesOk(m.fieldType)
    case Scalar(id) => id != INTERVAL
    case _ => true
  }

  /** No STRUCT in the value is written as a text that looks like a wrapper, and there is no UNION in it. */
  predicate Unmistakable(v: Value, t: LogicalType)
    requires HasType(v, t)
    decreases v, 1
  {
    match v
    case Elements(items) => AllUnmistakable(items, t.child)
    case Row(fields) => !LooksWrapped(JsonSyntax.Text(ToJson(v, t))) && FieldsUnmistakable(fields, t.fields)
    case Pairs(entries) => EntriesUnmistakable(entries, t.key, t.value)
    case Tagged(_, _) => false
    case _ => true
  }

  predicate AllUnmistakable(vs: seq<Value>, t: LogicalType)
    requires AllHaveType(vs, t)
    decreases vs, 0
  {
    vs == [] || (Unmistakable(vs[0], t) && AllUnmistakable(vs[1..], t))
  }

  predicate FieldsUnmistakable(vs: seq<Value>, fields: seq<Field>)
    requires FieldsHaveType(vs, fields)
    decreases vs, 0
  {
    vs == [] || (Unmistakable(vs[0], fields[0].fieldType) && FieldsUnmistakable(vs[1..], fields[1..]))
  }

  predicate EntryUnmistakable(e: Entry, key: LogicalType, value: LogicalType)
    requires EntryHasType(e, key, value)
    decreases e, 0
  {
    Unmistakable(e.key, key) && Unmistakable(e.value, value)
  }

  predicate EntriesUnmistakable(es: seq<Entry>, key: LogicalType, value: LogicalType)
    requires EntriesHaveType(es, key, value)
    decreases es, 0
  {
    es == [] || (EntryUnmistakable(es[0], key, value) && EntriesUnmistakable(es[1..], key, value))
  }

  // ---- nothing is decoded into something deeper than its text ----

  function Max(a: nat, b: nat): nat { if a > b then a else b }

  /** Nesting of a value: how many containers are inside each other. */
  function Depth(v: Value): nat
    decreases v, 1
  {
    match v
    case Elements(items) => 1 + DepthAll(items)
    case Row(fields) => 1 + DepthAll(fields)
    case Pairs(entries) => 1 + DepthEntries(entries)
    case Tagged(_, value) => 1 + Depth(value)
    case _ => 0
  }

  function DepthAll(vs: seq<Value>): nat
    decreases vs, 0
  {
    if vs == [] then 0 else Max(Depth(vs[0]), DepthAll(vs[1..]))
  }

  function DepthEntry(e: Entry): nat
    decreases e, 0
  {
    1 + Max(Depth(e.key), Depth(e.value))
  }

  function DepthEntries(es: seq<Entry>): nat
    decreases es, 0
  {
    if es == [] then 0 else Max(DepthEntry(es[0]), DepthEntries(es[1..]))
  }

  function JsonDepth(j: Json): nat
    decreases j, 2
  {
    match j
    case Arr(items, _) => 1 + ItemsDepth(items)
    case Obj(members, _) => 1 + MembersDepth(members)
    case _ => 0
  }

  function ItemsDepth(items: seq<Slot>): nat
    decreases items, 5
  {
    if items == [] then 0 else Max(JsonDepth(items[0].value), ItemsDepth(items[1..]))
  }

  function MembersDepth(ms: seq<Member>): nat
    decreases ms, 5
  {
    if ms == [] then 0 else Max(JsonDepth(ms[0].slot.value), MembersDepth(ms[1..]))
  }

  predicate Within(v: Option<Value>, d: nat) { v.Some? ==> Depth(v.value) <= d }

  lemma ConvertWithin(db: Database, x: Value, t: LogicalType)
    requires NestsNothing(db)
    ensures Within(db.convert(x, t), Depth(x))
  {
    assert Asked(x, t);
  }

  lemma {:induction false} MeaningWithin(j: Json, t: LogicalType, db: Database)
    requires WellFormedJson(j) && NestsNothing(db)
    ensures Within(Meaning(j, t, db), JsonDepth(j))
    decreases j, 2
  {
    match j
    case Null =>
    case True => ConvertWithin(db, Bool(true), t);
    case False => ConvertWithin(db, Bool(false), t);
    case Num(text) => ConvertWithin(db, Value.Text(text), t);
    case Str(units) => ConvertWithin(db, Value.Text(UnitsValue(units)), t);
    case Arr(items, pad) => ArrayWithin(items, pad, t, db);
    case Obj(members, pad) => ObjectWithin(members, pad, t, db);
  }

  lemma {:induction false} ArrayWithin(items: seq<Slot>, pad: bytes, t: LogicalType, db: Database)
    requires WellFormedJson(Arr(items, pad)) && NestsNothing(db)
    ensures Within(Meaning(Arr(items, pad), t, db), 1 + ItemsDepth(items))
    decreases items, 6
  {
    if t.List? || t.Array? {
      ItemsWithin(items, t.child, db);
      var vs := ItemsMeaning(items, t.child, db);
      if vs.Some? { ConvertWithin(db, Elements(vs.value), t); }
    } else if t.Map? {
      EntriesWithin(items, t.key, t.value, db);
      var es := EntriesMeaning(items, t.key, t.value, db);
      if es.Some? { ConvertWithin(db, Pairs(es.value), t); }
    }
  }

  lemma {:induction false} ItemsWithin(items: seq<Slot>, child: LogicalType, db: Database)
    requires ItemsOk(items) && NestsNothing(db)
    ensures ItemsMeaning(items, child, db).Some? ==> DepthAll(ItemsMeaning(items, child, db).value) <= ItemsDepth(items)
    decreases items, 5
  {
    if items != [] {
      MeaningWithin(items[0].value, child, db);
      ItemsWithin(items[1..], child, db);
    }
  }

  lemma {:induction false} EntryWithin(j: Json, key: LogicalType, value: LogicalType, db: Database)
    requires WellFormedJson(j) && NestsNothing(db)
    ensures EntryMeaning(j, key, value, db).Some? ==> DepthEntry(EntryMeaning(j, key, value, db).value) <= JsonDepth(j)
    decreases j, 3
  {
    if j.Arr? && |j.items| == 2 {
      SecondItemOk(j.items);
      MeaningWithin(j.items[0].value, key, db);
      MeaningWithin(j.items[1].value, value, db);
      assert j.items[1..][0] == j.items[1];
      assert ItemsDepth(j.items[1..]) >= JsonDepth(j.items[1].value);
    }
  }

  lemma {:induction false} EntriesWithin(items: seq<Slot>, key: LogicalType, value: LogicalType, db: Database)
    requires ItemsOk(items) && NestsNothing(db)
    ensures EntriesMeaning(items, key, value, db).Some? ==>
              DepthEntries(EntriesMeaning(items, key, value, db).value) <= ItemsDepth(items)
    decreases items, 5
  {
    if items != [] {
      EntryWithin(items[0].value, key, value, db);
      EntriesWithin(items[1..], key, value, db);
    }
  }

  lemma {:induction false} ObjectWithin(members: seq<Member>, pad: bytes, t: LogicalType, db: Database)
    requires WellFormedJson(Obj(members, pad)) && NestsNothing(db)
    ensures Within(Meaning(Obj(members, pad), t, db), 1 + MembersDepth(members))
    decreases members, 7
  {
    var wrapped := LooksWrapped(JsonSyntax.Text(Obj(members, pad)));
    ObjectMeaning(members, pad, t, db, wrapped);
    if wrapped {
      WrapperWithin(members, db);
    } else if t.Struct? {
      var none := Unfilled(|t.fields|);
      MembersWithin(members, t.fields, none, db, MembersDepth(members));
      var filled := MembersMeaning(members, t.fields, none, db);
      if filled.Some? {
        BackfillDepth(filled.value, MembersDepth(members));
        ConvertWithin(db, Row(Backfill(filled.value)), t);
      }
    }
  }

  predicate FilledWithin(filled: seq<Option<Value>>, d: nat) {
    forall i :: 0 <= i < |filled| ==> Within(filled[i], d)
  }

  lemma {:induction false} MembersWithin(ms: seq<Member>, fields: seq<Field>, filled: seq<Option<Value>>, db: Database, d: nat)
    requires MembersOk(ms) && NestsNothing(db) && |filled| == |fields| && FilledWithin(filled, d) && MembersDepth(ms) <= d
    ensures MembersMeaning(ms, fields, filled, db).Some? ==> FilledWithin(MembersMeaning(ms, fields, filled, db).value, d)
    decreases ms, 5
  {
    if ms != [] {
      var i := FieldIndex(fields, UnitsValue(ms[0].key), 0);
      if i.Some? && filled[i.value].None? {
        MeaningWithin(ms[0].slot.value, fields[i.value].fieldType, db);
        var v := Meaning(ms[0].slot.value, fields[i.value].fieldType, db);
        MeaningTake(ms, fields, filled, db, i.value, v);
        if v.Some? { MembersWithin(ms[1..], fields, filled[i.value := v], db, d); }
      }
    }
  }

  lemma {:induction false} DepthAllBound(vs: seq<Value>, d: nat)
    requires forall i :: 0 <= i < |vs| ==> Depth(vs[i]) <= d
    ensures DepthAll(vs) <= d
  {
    if vs != [] { DepthAllBound(vs[1..], d); }
  }

  lemma BackfillDepth(filled: seq<Option<Value>>, d: nat)
    requires FilledWithin(filled, d)
    ensures DepthAll(Backfill(filled)) <= d
  {
    DepthAllBound(Backfill(filled), d);
  }

  lemma {:induction false} MemberDepth(ms: seq<Member>, i: nat)
    requires i < |ms|
    ensures JsonDepth(ms[i].slot.value) <= MembersDepth(ms)
  {
    if i > 0 {
      assert ms[1..][i - 1] == ms[i];
      MemberDepth(ms[1..], i - 1);
    }
  }

  /** A wrapper means what its value member means, which is less deep than the wrapper. */
  lemma {:induction false} WrapperWithin(ms: seq<Member>, db: Database)
    requires MembersOk(ms) && NestsNothing(db)
    ensures Within(WrapperMeaning(ms, db), MembersDepth(ms))
    decreases ms, 6
  {
    var ti, vi := WrapperParts(ms, db);
    if ti.Some? {
      var typeText := UnitsValue(ms[ti.value].slot.value.units);
      var t := TypeParser.ParseType(typeText, 0);
      WrapperMeaningIs(ms, ti.value, vi, t, db);
      MemberDepth(ms, vi);
      if t.Some? { MeaningWithin(ms[vi].slot.value, t.value, db); }
    }
  }

  // ---- the trees of values ----

  lemma {:induction false} ToJsonDepth(v: Value, t: LogicalType)
    requires HasType(v, t) && NamesOk(t)
    ensures JsonDepth(ToJson(v, t)) == Depth(v)
    decreases v, 1
  {
    match v
    case Elements(items) => ItemsJsonDepth(items, t.child);
    case Row(fields) => FieldsJsonDepth(fields, t.fields);
    case Pairs(entries) => EntriesJsonDepth(entries, t.key, t.value);
    case Tagged(member, value) =>
      ToJsonDepth(value, t.members[member].fieldType);
      TaggedDepth(UNION_TAG, t.members[member].name, UNION_VALUE, ToJson(value, t.members[member].fieldType));
    case _ =>
  }

  lemma TaggedDepth(tagKey: bytes, name: bytes, valueKey: bytes, value: Json)
    ensures JsonDepth(Obj(TaggedMembers(tagKey, name, valueKey, value), [])) == 1 + JsonDepth(value)
  {
    var ms := TaggedMembers(tagKey, name, valueKey, value);
    TwoDepth(ms[0], ms[1]);
    assert ms == [ms[0], ms[1]];
  }

  lemma TwoDepth(a: Member, b: Member)
    ensures MembersDepth([a, b]) == Max(JsonDepth(a.slot.value), JsonDepth(b.slot.value))
  {
    assert [a, b][1..] == [b] && [b][1..] == [];
    assert MembersDepth([b]) == Max(JsonDepth(b.slot.value), MembersDepth([]));
  }

  lemma {:induction false} ItemsJsonDepth(vs: seq<Value>, child: LogicalType)
    requires AllHaveType(vs, child) && NamesOk(child)
    ensures ItemsDepth(ItemsJson(vs, child)) == DepthAll(vs)
    decreases vs, 0
  {
    if vs != [] {
      ToJsonDepth(vs[0], child);
      ItemsJsonDepth(vs[1..], child);
      assert ItemsJson(vs, child)[1..] == ItemsJson(vs[1..], child);
    }
  }

  lemma {:induction false} FieldsJsonDepth(vs: seq<Value>, fields: seq<Field>)
    requires FieldsHaveType(vs, fields) && forall f :: f in fields ==> NamesOk(f.fieldType)
    ensures MembersDepth(FieldsJson(vs, fields)) == DepthAll(vs)
    decreases vs, 0
  {
    if vs != [] {
      ToJsonDepth(vs[0], fields[0].fieldType);
      FieldsJsonDepth(vs[1..], fields[1..]);
      assert FieldsJson(vs, fields)[1..] == FieldsJson(vs[1..], fields[1..]);
    }
  }

  lemma {:induction false} EntryJsonDepth(e: Entry, key: LogicalType, value: LogicalType)
    requires EntryHasType(e, key, value) && NamesOk(key) && NamesOk(value)
    ensures JsonDepth(EntryJson(e, key, value)) == DepthEntry(e)
    decreases e, 0
  {
    ToJsonDepth(e.key, key);
    ToJsonDepth(e.value, value);
    var items := EntryJson(e, key, value).items;
    assert items[1..][0] == items[1] && items[1..][1..] == [];
    assert ItemsDepth(items[1..]) == JsonDepth(items[1].value);
  }

  lemma {:induction false} EntriesJsonDepth(es: seq<Entry>, key: LogicalType, value: LogicalType)
    requires EntriesHaveType(es, key, value) && NamesOk(key) && NamesOk(value)
    ensures ItemsDepth(EntriesJson(es, key, value)) == DepthEntries(es)
    decreases es, 0
  {
    if es != [] {
      EntryJsonDepth(es[0], key, value);
      EntriesJsonDepth(es[1..], key, value);
      assert EntriesJson(es, key, value)[1..] == EntriesJson(es[1..], key, value);
    }
  }

  // ---- the round trip on trees ----

  lemma EscapedIsFaithful(s: bytes)
    requires WellFormed(s)
    ensures UnitsOk(Escaped(s)) && UnitsValue(Escaped(s)) == s
  {
    EscapedMeaning(s, 0);
    SanitizedProperties(s);
  }

  lemma DecimalIsClean(n: int)
    ensures WellFormed(Bytes.Decimal(n))
  {
    WellFormedAscii(Bytes.Decimal(n), 0);
  }

  lemma IntegerRoundTrip(id: ScalarId, n: int, db: Database)
    requires InRange(id, n) && ReadsInt(db, id, n)
    ensures WellFormedJson(IntJson(id, n)) && Meaning(IntJson(id, n), LogicalType.Scalar(id), db) == Some(Int(n))
  {
    DecimalIsNumber(n);
    DecimalIsClean(n);
    EscapedIsFaithful(Bytes.Decimal(n));
  }

  lemma {:induction false} FieldFound(fields: seq<Field>, k: nat, from: nat)
    requires NamesDiffer(fields) && from <= k < |fields|
    ensures FieldIndex(fields, fields[k].name, from) == Some(k)
    decreases k - from
  {
    if from < k { FieldFound(fields, k, from + 1); }
  }

  /** Both halves: decoding the tree of `v` gives `v` if, and for a database that builds nothing only if, ... */
  ghost predicate RoundTrips<A(!new)>(decoded: Option<A>, v: A, unmistakable: bool, db: Database) {
    && (unmistakable ==> decoded == Some(v))
    && (NestsNothing(db) && decoded == Some(v) ==> unmistakable)
  }

  lemma ShownRoundTrip(text: bytes, t: LogicalType, db: Database)
    requires HasTextForm(t) && WellFormed(text) && db.convert(Value.Text(text), t) == Some(Shown(text))
    ensures WellFormedJson(ShownJson(text, t)) && Meaning(ShownJson(text, t), t, db) == Some(Shown(text))
  {
    EscapedIsFaithful(text);
  }

  /** The object of a UNION is refused: it has no member called `type`, and its type is no STRUCT. */
  lemma TaggedIsRefused(tagKey: bytes, name: bytes, valueKey: bytes, value: Json, t: LogicalType, db: Database)
    requires WellFormed(tagKey) && WellFormed(name) && WellFormed(valueKey) && WellFormedJson(value)
    requires tagKey != TYPE_KEY && valueKey != TYPE_KEY && !t.Struct?
    ensures WellFormedJson(Obj(TaggedMembers(tagKey, name, valueKey, value), []))
    ensures Meaning(Obj(TaggedMembers(tagKey, name, valueKey, value), []), t, db) == None
  {
    var ms := TaggedMembers(tagKey, name, valueKey, value);
    EscapedIsFaithful(tagKey);
    EscapedIsFaithful(name);
    EscapedIsFaithful(valueKey);
    TwoOk(ms[0], ms[1]);
    LastOfTwo(ms[0], ms[1], TYPE_KEY);
    ObjectMeaning(ms, [], t, db, LooksWrapped(JsonSyntax.Text(Obj(ms, []))));
  }

  lemma UnionKeys()
    ensures WellFormed(UNION_TAG) && WellFormed(UNION_VALUE) && UNION_TAG != TYPE_KEY && UNION_VALUE != TYPE_KEY
  {
    WellFormedAscii(UNION_TAG, 0);
    WellFormedAscii(UNION_VALUE, 0);
    assert UNION_TAG[1] != TYPE_KEY[1] && UNION_VALUE[0] != TYPE_KEY[0];
  }

  /**
   The typed round trip on trees. A STRUCT that looks like a wrapper and a UNION are what breaks
   it, and nothing else does.
   */
  lemma {:induction false} TreeRoundTrip(v: Value, t: LogicalType, db: Database)
    requires HasType(v, t) && CleanValue(v) && NamesOk(t) && Builds(db, v, t)
    ensures WellFormedJson(ToJson(v, t))
    ensures RoundTrips(Meaning(ToJson(v, t), t, db), v, Unmistakable(v, t), db)
    decreases v, 1
  {
    match v
    case Null =>
    case Bool(b) =>
    case Int(n) => IntegerRoundTrip(t.id, n, db);
    case Text(s) => EscapedIsFaithful(s);
    case Elements(items) =>
      ItemsRoundTrip(items, t.child, db);
      ElementsConvert(items, t, db);
    case Row(fields) => RowRoundTrip(fields, t.fields, db);
    case Pairs(entries) =>
      EntriesRoundTrip(entries, t.key, t.value, db);
      PairsConvert(entries, t, db);
    case Shown(text) => ShownRoundTrip(text, t, db);
    case Tagged(member, value) =>
      var m := t.members[member];
      TreeRoundTrip(value, m.fieldType, db);
      UnionKeys();
      TaggedIsRefused(UNION_TAG, m.name, UNION_VALUE, ToJson(value, m.fieldType), t, db);
  }

  lemma ElementsConvert(items: seq<Value>, t: LogicalType, db: Database)
    requires HasType(Elements(items), t) && Builds(db, Elements(items), t) && ItemsOk(ItemsJson(items, t.child))
    requires RoundTrips(ItemsMeaning(ItemsJson(items, t.child), t.child, db), items, AllUnmistakable(items, t.child), db)
    ensures RoundTrips(Meaning(ToJson(Elements(items), t), t, db), Elements(items), AllUnmistakable(items, t.child), db)
  {
    var vs := ItemsMeaning(ItemsJson(items, t.child), t.child, db);
    assert Meaning(ToJson(Elements(items), t), t, db) == ArrayMeans(ItemsJson(items, t.child), t, db);
    if NestsNothing(db) && vs.Some? {
      assert Asked(Elements(vs.value), t);
    }
  }

  lemma PairsConvert(entries: seq<Entry>, t: LogicalType, db: Database)
    requires HasType(Pairs(entries), t) && Builds(db, Pairs(entries), t) && ItemsOk(EntriesJson(entries, t.key, t.value))
    requires RoundTrips(EntriesMeaning(EntriesJson(entries, t.key, t.value), t.key, t.value, db), entries,
                        EntriesUnmistakable(entries, t.key, t.value), db)
    ensures RoundTrips(Meaning(ToJson(Pairs(entries), t), t, db), Pairs(entries),
                       EntriesUnmistakable(entries, t.key, t.value), db)
  {
    var es := EntriesMeaning(EntriesJson(entries, t.key, t.value), t.key, t.value, db);
    assert Meaning(ToJson(Pairs(entries), t), t, db) == ArrayMeans(EntriesJson(entries, t.key, t.value), t, db);
    if NestsNothing(db) && es.Some? {
      assert Asked(Pairs(es.value), t);
    }
  }

  /** The first of the values and the others: their trees, and what the round trip asks of them. */
  lemma ItemsSplit(vs: seq<Value>, child: LogicalType, db: Database) returns (j: Json, rest: seq<Value>, more: seq<Slot>)
    requires vs != [] && AllHaveType(vs, child) && BuildsAll(db, vs, child)
    ensures HasType(vs[0], child) && Builds(db, vs[0], child) && j == ToJson(vs[0], child)
    ensures rest == vs[1..] && AllHaveType(rest, child) && BuildsAll(db, rest, child) && more == ItemsJson(rest, child)
    ensures ItemsJson(vs, child) == [Tight(j)] + more
    ensures AllUnmistakable(vs, child) <==> Unmistakable(vs[0], child) && AllUnmistakable(rest, child)
  {
    j, rest := ToJson(vs[0], child), vs[1..];
    more := ItemsJson(rest, child);
  }

  lemma ItemsTaken(j: Json, more: seq<Slot>, child: LogicalType, db: Database)
    requires WellFormedJson(j) && ItemsOk(more)
    ensures ItemsOk([Tight(j)] + more)
    ensures ItemsMeaning([Tight(j)] + more, child, db) == Cons(Meaning(j, child, db), ItemsMeaning(more, child, db))
  {
    assert ([Tight(j)] + more)[1..] == more;
  }

  /** The first and the others come back exactly when the whole does. */
  lemma ConsRoundTrip<A(!new)>(a: Option<A>, rest: Option<seq<A>>, vs: seq<A>, one: bool, others: bool, db: Database)
    requires vs != [] && RoundTrips(a, vs[0], one, db) && RoundTrips(rest, vs[1..], others, db)
    ensures RoundTrips(Cons(a, rest), vs, one && others, db)
  {
    ConsMatches(Cons(a, rest), a, rest, vs);
  }

  lemma {:induction false} ItemsRoundTrip(vs: seq<Value>, child: LogicalType, db: Database)
    requires AllHaveType(vs, child) && NamesOk(child) && BuildsAll(db, vs, child) && forall x :: x in vs ==> CleanValue(x)
    ensures ItemsOk(ItemsJson(vs, child))
    ensures RoundTrips(ItemsMeaning(ItemsJson(vs, child), child, db), vs, AllUnmistakable(vs, child), db)
    decreases vs, 0
  {
    if vs != [] {
      var j, rest, more := ItemsSplit(vs, child, db);
      TreeRoundTrip(vs[0], child, db);
      ItemsRoundTrip(rest, child, db);
      ItemsTaken(j, more, child, db);
      ConsRoundTrip(Meaning(j, child, db), ItemsMeaning(more, child, db), vs, Unmistakable(vs[0], child),
                    AllUnmistakable(rest, child), db);
    }
  }

  lemma ConsMatches<A>(whole: Option<seq<A>>, a: Option<A>, rest: Option<seq<A>>, vs: seq<A>)
    requires vs != [] && whole == Cons(a, rest)
    ensures whole == Some(vs) <==> a == Some(vs[0]) && rest == Some(vs[1..])
  {
    if a.Some? && rest.Some? {
      assert [a.value] + rest.value == vs <==> a.value == vs[0] && rest.value == vs[1..] by {
        if [a.value] + rest.value == vs {
          assert vs[1..] == ([a.value] + rest.value)[1..] == rest.value;
        }
      }
    }
  }

  lemma {:induction false} EntryRoundTrip(e: Entry, key: LogicalType, value: LogicalType, db: Database)
    requires EntryHasType(e, key, value) && CleanValue(e.key) && CleanValue(e.value)
    requires NamesOk(key) && NamesOk(value) && BuildsEntry(db, e, key, value)
    ensures WellFormedJson(EntryJson(e, key, value))
    ensures RoundTrips(EntryMeaning(EntryJson(e, key, value), key, value, db), e, EntryUnmistakable(e, key, value), db)
    decreases e, 0
  {
    TreeRoundTrip(e.key, key, db);
    TreeRoundTrip(e.value, value, db);
    PairOk(ToJson(e.key, key), ToJson(e.value, value));
  }

  lemma PairOk(a: Json, b: Json)
    requires WellFormedJson(a) && WellFormedJson(b)
    ensures WellFormedJson(Arr([Tight(a), Tight(b)], []))
  {
    assert [Tight(a), Tight(b)][1..] == [Tight(b)];
    assert ItemsOk([Tight(b)]);
  }

  lemma EntriesSplit(es: seq<Entry>, key: LogicalType, value: LogicalType, db: Database)
    returns (j: Json, rest: seq<Entry>, more: seq<Slot>)
    requires es != [] && EntriesHaveType(es, key, value) && BuildsEntries(db, es, key, value)
    ensures EntryHasType(es[0], key, value) && BuildsEntry(db, es[0], key, value) && j == EntryJson(es[0], key, value)
    ensures rest == es[1..] && EntriesHaveType(rest, key, value) && BuildsEntries(db, rest, key, value)
    ensures more == EntriesJson(rest, key, value) && EntriesJson(es, key, value) == [Tight(j)] + more
    ensures EntriesUnmistakable(es, key, value) <==> EntryUnmistakable(es[0], key, value) && EntriesUnmistakable(rest, key, value)
  {
    j, rest := EntryJson(es[0], key, value), es[1..];
    more := EntriesJson(rest, key, value);
  }

  lemma EntriesTaken(j: Json, more: seq<Slot>, key: LogicalType, value: LogicalType, db: Database)
    requires WellFormedJson(j) && ItemsOk(more)
    ensures ItemsOk([Tight(j)] + more)
    ensures EntriesMeaning([Tight(j)] + more, key, value, db)
         == Cons(EntryMeaning(j, key, value, db), EntriesMeaning(more, key, value, db))
  {
    assert ([Tight(j)] + more)[1..] == more;
  }

  lemma {:induction false} EntriesRoundTrip(es: seq<Entry>, key: LogicalType, value: LogicalType, db: Database)
    requires EntriesHaveType(es, key, value) && NamesOk(key) && NamesOk(value) && BuildsEntries(db, es, key, value)
    requires forall e :: e in es ==> CleanValue(e.key) && CleanValue(e.value)
    ensures ItemsOk(EntriesJson(es, key, value))
    ensures RoundTrips(EntriesMeaning(EntriesJson(es, key, value), key, value, db), es, EntriesUnmistakable(es, key, value), db)
    decreases es, 0
  {
    if es != [] {
      var j, rest, more := EntriesSplit(es, key, value, db);
      EntryRoundTrip(es[0], key, value, db);
      EntriesRoundTrip(rest, key, value, db);
      EntriesTaken(j, more, key, value, db);
      ConsRoundTrip(EntryMeaning(j, key, value, db), EntriesMeaning(more, key, value, db), es,
                    EntryUnmistakable(es[0], key, value), EntriesUnmistakable(rest, key, value), db);
    }
  }

  // ---- rows ----

  /** The fields before `k` are filled and the others are not. */
  predicate FilledTo(filled: seq<Option<Value>>, k: nat) {
    forall i :: 0 <= i < |filled| ==> (filled[i].Some? <==> i < k)
  }

  /** From `k` on, `filled` holds the values `vs`. */
  predicate HoldsFrom(filled: Option<seq<Option<Value>>>, vs: seq<Value>, k: nat) {
    filled.Some? && |filled.value| == |vs| && forall i :: k <= i < |vs| ==> filled.value[i] == Some(vs[i])
  }

  /** What holds of the fields from `k` on: of the first of them, and of the others. */
  lemma FieldsSplit(vs: seq<Value>, fields: seq<Field>, k: nat, db: Database) returns (more: seq<Member>)
    requires k < |vs| == |fields| && FieldsHaveType(vs[k..], fields[k..]) && BuildsFields(db, vs[k..], fields[k..])
    ensures HasType(vs[k], fields[k].fieldType) && Builds(db, vs[k], fields[k].fieldType)
    ensures FieldsHaveType(vs[k + 1..], fields[k + 1..]) && BuildsFields(db, vs[k + 1..], fields[k + 1..])
    ensures more == FieldsJson(vs[k + 1..], fields[k + 1..])
    ensures FieldsJson(vs[k..], fields[k..]) == [Pair(Escaped(fields[k].name), ToJson(vs[k], fields[k].fieldType))] + more
    ensures FieldsUnmistakable(vs[k..], fields[k..])
            <==> Unmistakable(vs[k], fields[k].fieldType) && FieldsUnmistakable(vs[k + 1..], fields[k + 1..])
  {
    assert vs[k..][1..] == vs[k + 1..] && fields[k..][1..] == fields[k + 1..];
    more := FieldsJson(vs[k + 1..], fields[k + 1..]);
  }

  /** What one member of a row does to the slots. */
  lemma FieldTaken(j: Json, more: seq<Member>, fields: seq<Field>, k: nat, filled: seq<Option<Value>>, db: Database)
    requires k < |fields| == |filled| && NamesDiffer(fields) && filled[k].None?
    requires NamesOk(Struct(fields)) && WellFormedJson(j) && MembersOk(more)
    ensures MembersOk([Pair(Escaped(fields[k].name), j)] + more)
    ensures var v := Meaning(j, fields[k].fieldType, db);
            MembersMeaning([Pair(Escaped(fields[k].name), j)] + more, fields, filled, db)
            == if v.None? then None else MembersMeaning(more, fields, filled[k := v], db)
  {
    var ms := [Pair(Escaped(fields[k].name), j)] + more;
    EscapedIsFaithful(fields[k].name);
    FieldFound(fields, k, 0);
    assert ms[1..] == more;
    MeaningTake(ms, fields, filled, db, k, Meaning(j, fields[k].fieldType, db));
  }

  /** One field and the others come back exactly when both do. */
  lemma FieldsJoin(vs: seq<Value>, k: nat, filled: seq<Option<Value>>, v: Option<Value>, out: Option<seq<Option<Value>>>,
                   rest: Option<seq<Option<Value>>>, one: bool, others: bool, db: Database)
    requires k < |vs| == |filled| && FilledTo(filled, k) && RoundTrips(v, vs[k], one, db)
    requires out == if v.None? then None else rest
    requires others ==> HoldsFrom(rest, vs, k + 1)
    requires NestsNothing(db) && HoldsFrom(rest, vs, k + 1) ==> others
    requires v.Some? && rest.Some? ==>
               |rest.value| == |vs| && FilledTo(rest.value, |vs|) && forall i :: 0 <= i <= k ==> rest.value[i] == filled[k := v][i]
    ensures one && others ==> HoldsFrom(out, vs, k)
    ensures NestsNothing(db) && HoldsFrom(out, vs, k) ==> one && others
    ensures out.Some? ==> |out.value| == |vs| && FilledTo(out.value, |vs|) && forall i :: 0 <= i < k ==> out.value[i] == filled[i]
  {
    if v.Some? && rest.Some? {
      assert rest.value[k] == filled[k := v][k] == v;
      forall i | 0 <= i < k ensures rest.value[i] == filled[i] { assert filled[k := v][i] == filled[i]; }
    }
  }

  lemma {:induction false} FieldsRoundTrip(vs: seq<Value>, fields: seq<Field>, k: nat, filled: seq<Option<Value>>, db: Database)
    requires k <= |vs| == |fields| == |filled| && FieldsHaveType(vs[k..], fields[k..])
    requires NamesOk(Struct(fields)) && FilledTo(filled, k) && BuildsFields(db, vs[k..], fields[k..])
    requires forall x :: x in vs ==> CleanValue(x)
    ensures MembersOk(FieldsJson(vs[k..], fields[k..]))
    ensures var out := MembersMeaning(FieldsJson(vs[k..], fields[k..]), fields, filled, db);
            (FieldsUnmistakable(vs[k..], fields[k..]) ==> HoldsFrom(out, vs, k))
            && (NestsNothing(db) && HoldsFrom(out, vs, k) ==> FieldsUnmistakable(vs[k..], fields[k..]))
            && (out.Some? ==> FilledTo(out.value, |vs|) && forall i :: 0 <= i < k ==> out.value[i] == filled[i])
    decreases vs, |vs| - k
  {
    if k < |vs| {
      var more := FieldsSplit(vs, fields, k, db);
      var t := fields[k].fieldType;
      var j := ToJson(vs[k], t);
      TreeRoundTrip(vs[k], t, db);
      var v := Meaning(j, t, db);
      var next := filled[k := if v.Some? then v else Some(Value.Null)];
      FieldsRoundTrip(vs, fields, k + 1, next, db);
      FieldTaken(j, more, fields, k, filled, db);
      FieldsJoin(vs, k, filled, v, MembersMeaning([Pair(Escaped(fields[k].name), j)] + more, fields, filled, db),
                 MembersMeaning(more, fields, next, db), Unmistakable(vs[k], t),
                 FieldsUnmistakable(vs[k + 1..], fields[k + 1..]), db);
    }
  }

  lemma {:induction false} RowRoundTrip(vs: seq<Value>, fields: seq<Field>, db: Database)
    requires FieldsHaveType(vs, fields) && NamesOk(Struct(fields)) && Builds(db, Row(vs), Struct(fields)) && forall x :: x in vs ==> CleanValue(x)
    ensures WellFormedJson(ToJson(Row(vs), Struct(fields)))
    ensures RoundTrips(Meaning(ToJson(Row(vs), Struct(fields)), Struct(fields), db), Row(vs),
                       Unmistakable(Row(vs), Struct(fields)), db)
    decreases vs, |vs| + 1
  {
    var t := Struct(fields);
    var ms := FieldsJson(vs, fields);
    var none := Unfilled(|fields|);
    assert vs[0..] == vs && fields[0..] == fields;
    FieldsRoundTrip(vs, fields, 0, none, db);
    var wrapped := LooksWrapped(JsonSyntax.Text(Obj(ms, [])));
    ObjectMeaning(ms, [], t, db, wrapped);
    if wrapped {
      if NestsNothing(db) {
        FieldsJsonDepth(vs, fields);
        WrapperWithin(ms, db);
      }
    } else {
      RowConvert(vs, fields, MembersMeaning(ms, fields, none, db), db);
    }
  }

  lemma RowConvert(vs: seq<Value>, fields: seq<Field>, out: Option<seq<Option<Value>>>, db: Database)
    requires FieldsHaveType(vs, fields) && db.convert(Row(vs), Struct(fields)) == Some(Row(vs))
    requires out.Some? ==> FilledTo(out.value, |vs|) && |out.value| == |vs|
    ensures var decoded := if out.None? then None else db.convert(Row(Backfill(out.value)), Struct(fields));
            (HoldsFrom(out, vs, 0) ==> decoded == Some(Row(vs)))
            && (NestsNothing(db) && decoded == Some(Row(vs)) ==> HoldsFrom(out, vs, 0))
  {
    if HoldsFrom(out, vs, 0) { assert Backfill(out.value) == vs; }
    if NestsNothing(db) && out.Some? {
      assert Asked(Row(Backfill(out.value)), Struct(fields));
      if Backfill(out.value) == vs {
        assert forall i :: 0 <= i < |vs| ==> Backfill(out.value)[i] == vs[i];
      }
    }
  }

  // ---- the round trip on texts ----

  /** What a tree means is what DecodeOne answers at its text. */
  lemma MeansWhereItStands(json: bytes, p: nat, j: Json, t: LogicalType, db: Database, v: Value, end: nat)
    requires WellFormedJson(j) && At(json, p, JsonSyntax.Text(j)) && end == p + |JsonSyntax.Text(j)|
    requires j.Num? ==> NumberEnds(json, end)
    ensures DecodeOneAt(json, p, t, db) == Ok(v, end) <==> Meaning(j, t, db) == Some(v)
  {
    DecodeAgrees(json, p, j, t, db);
  }

  lemma ExactlyWhereItStands(json: bytes, p: nat, j: Json, t: LogicalType, db: Database, v: Value, exactly: bool)
    requires WellFormedJson(j) && At(json, p, JsonSyntax.Text(j))
    requires j.Num? ==> NumberEnds(json, p + |JsonSyntax.Text(j)|)
    requires Meaning(j, t, db) == Some(v) <==> exactly
    ensures exactly <==> DecodeOneAt(json, p, t, db) == Ok(v, p + |JsonSyntax.Text(j)|)
  {
    MeansWhereItStands(json, p, j, t, db, v, p + |JsonSyntax.Text(j)|);
  }

  /**
   The typed round trip: reading at type `t` the text written for `v` at type `t`, wherever
   it stands, gives `v` back and stops exactly at its end, if no STRUCT in it can be mistaken
   for a wrapper and there is no UNION in it.
   */
  lemma ValueRoundTrips(json: bytes, p: nat, v: Value, t: LogicalType, db: Database)
    requires HasType(v, t) && CleanValue(v) && NamesOk(t) && Builds(db, v, t) && Unmistakable(v, t)
    requires At(json, p, JsonSyntax.Text(ToJson(v, t)))
    requires ToJson(v, t).Num? ==> NumberEnds(json, p + |JsonSyntax.Text(ToJson(v, t))|)
    ensures DecodeOneAt(json, p, t, db) == Ok(v, p + |JsonSyntax.Text(ToJson(v, t))|)
  {
    var j := ToJson(v, t);
    TreeRoundTrip(v, t, db);
    MeansWhereItStands(json, p, j, t, db, v, p + |JsonSyntax.Text(j)|);
  }

  /**
   Exactly when: for a database that builds no nested values of its own, the condition is also
   necessary. `j` is the tree written for `v`.
   */
  lemma {:induction false} ValueRoundTripsExactly(json: bytes, p: nat, j: Json, v: Value, t: LogicalType, db: Database)
    requires HasType(v, t) && CleanValue(v) && NamesOk(t) && Builds(db, v, t) && NestsNothing(db)
    requires j == ToJson(v, t) && At(json, p, JsonSyntax.Text(j)) && (j.Num? ==> NumberEnds(json, p + |JsonSyntax.Text(j)|))
    ensures Unmistakable(v, t) <==> DecodeOneAt(json, p, t, db) == Ok(v, p + |JsonSyntax.Text(j)|)
  {
    TreeRoundTrip(v, t, db);
    ExactlyWhereItStands(json, p, j, t, db, v, Unmistakable(v, t));
  }

  /** An INTERVAL never comes back: its object is refused at its own type. */
  lemma IntervalIsRefused(months: int, days: int, micros: int, db: Database)
    ensures var j := ToJson(Interval(months, days, micros), LogicalType.Scalar(INTERVAL));
            WellFormedJson(j) && Meaning(j, LogicalType.Scalar(INTERVAL), db) == None
  {
    NoTypeKey(MONTHS);
    NoTypeKey(DAYS);
    NoTypeKey(MICROS);
    IntervalMeans(MONTHS, months, DAYS, days, MICROS, micros, db);
  }

  lemma NoTypeKey(key: string)
    requires key != "" && key[0] != 't' && forall i :: 0 <= i < |key| ==> key[i] < 128 as char
    ensures Ascii(key) != TYPE_KEY && WellFormed(Ascii(key))
  {
    assert Ascii(key)[0] == key[0] as int;
    WellFormedAscii(Ascii(key), 0);
  }

  lemma IntervalMeans(monthsKey: string, months: int, daysKey: string, days: int, microsKey: string, micros: int, db: Database)
    requires Ascii(monthsKey) != TYPE_KEY && Ascii(daysKey) != TYPE_KEY && Ascii(microsKey) != TYPE_KEY
    requires WellFormed(Ascii(monthsKey)) && WellFormed(Ascii(daysKey)) && WellFormed(Ascii(microsKey))
    ensures var j := Obj(IntervalMembers(monthsKey, months, daysKey, days, microsKey, micros), []);
            WellFormedJson(j) && Meaning(j, LogicalType.Scalar(INTERVAL), db) == None
  {
    var ms := IntervalMembers(monthsKey, months, daysKey, days, microsKey, micros);
    EscapedIsFaithful(Ascii(monthsKey));
    EscapedIsFaithful(Ascii(daysKey));
    EscapedIsFaithful(Ascii(microsKey));
    DecimalIsNumber(months);
    DecimalIsNumber(days);
    DecimalIsClean(micros);
    EscapedIsFaithful(Bytes.Decimal(micros));
    assert ms[1..] == [ms[1], ms[2]];
    TwoOk(ms[1], ms[2]);
    LastOfTwo(ms[1], ms[2], TYPE_KEY);
    assert LastMember(ms, TYPE_KEY) == None;
    ObjectMeaning(ms, [], LogicalType.Scalar(INTERVAL), db, LooksWrapped(JsonSyntax.Text(Obj(ms, []))));
  }

  // ---- the plainest database: identity, and decimal numerals with a range check ----

  function ReadDecimal(s: bytes): Option<int> {
    var negative := s != [] && s[0] == MINUS;
    var body := if negative then s[1..] else s;
    if body == [] || DigitRun(body, 0) != |body| then None
    else Some(if negative then -(DigitsValue(body) as int) else DigitsValue(body))
  }

  function PlainConvert(v: Value, t: LogicalType): Option<Value> {
    if v.Text? && t.Scalar? && IntRange(t.id).Some? then
      match ReadDecimal(v.s)
      case Some(n) => if InRange(t.id, n) then Some(Int(n)) else None
      case None => None
    else if v.Text? && HasTextForm(t) then Some(Shown(v.s))
    else Some(v)
  }

  const PLAIN := Database((v, t) => PlainConvert(v, t), s => None)

  lemma DecimalReads(n: int)
    ensures ReadDecimal(Bytes.Decimal(n)) == Some(n)
  {
    var magnitude := if n < 0 then -n else n;
    DigitsRoundTrip(magnitude);
    AllDigits(Digits(magnitude), 0);
    if n < 0 { assert Bytes.Decimal(n)[1..] == Digits(magnitude); }
  }

  lemma {:induction false} PlainBuilds(v: Value, t: LogicalType)
    requires HasType(v, t)
    ensures Builds(PLAIN, v, t)
    decreases v, 1
  {
    match v
    case Int(n) => DecimalReads(n);
    case Elements(items) => PlainBuildsAll(items, t.child);
    case Row(fields) => PlainBuildsFields(fields, t.fields);
    case Pairs(entries) => PlainBuildsEntries(entries, t.key, t.value);
    case Tagged(member, value) => PlainBuilds(value, t.members[member].fieldType);
    case _ =>
  }

  lemma {:induction false} PlainBuildsAll(vs: seq<Value>, t: LogicalType)
    requires AllHaveType(vs, t)
    ensures BuildsAll(PLAIN, vs, t)
    decreases vs, 0
  {
    if vs != [] {
      PlainBuilds(vs[0], t);
      PlainBuildsAll(vs[1..], t);
    }
  }

  lemma {:induction false} PlainBuildsFields(vs: seq<Value>, fields: seq<Field>)
    requires FieldsHaveType(vs, fields)
    ensures BuildsFields(PLAIN, vs, fields)
    decreases vs, 0
  {
    if vs != [] {
      PlainBuilds(vs[0], fields[0].fieldType);
      PlainBuildsFields(vs[1..], fields[1..]);
    }
  }

  lemma {:induction false} PlainBuildsEntry(e: Entry, key: LogicalType, value: LogicalType)
    requires EntryHasType(e, key, value)
    ensures BuildsEntry(PLAIN, e, key, value)
    decreases e, 0
  {
    PlainBuilds(e.key, key);
    PlainBuilds(e.value, value);
  }

  lemma {:induction false} PlainBuildsEntries(es: seq<Entry>, key: LogicalType, value: LogicalType)
    requires EntriesHaveType(es, key, value)
    ensures BuildsEntries(PLAIN, es, key, value)
    decreases es, 0
  {
    if es != [] {
      PlainBuildsEntry(es[0], key, value);
      PlainBuildsEntries(es[1..], key, value);
    }
  }

  /** With that database nothing is left to assume: every typed value comes back exactly when it is unmistakable. */
  lemma PlainRoundTrip(v: Value, t: LogicalType)
    requires HasType(v, t) && CleanValue(v) && NamesOk(t)
    ensures WellFormedJson(ToJson(v, t))
    ensures Meaning(ToJson(v, t), t, PLAIN) == Some(v) <==> Unmistakable(v, t)
  {
    PlainBuilds(v, t);
    assert NestsNothing(PLAIN);
    TreeRoundTrip(v, t, PLAIN);
  }

  /** The encoder and the decoder themselves, back to back. */
  method EncodeThenDecode(v: Value, t: LogicalType, db: Database) returns (r: Parsed<Value>)
    requires HasType(v, t) && CleanValue(v) && NamesOk(t) && Builds(db, v, t) && Unmistakable(v, t)
    ensures r == Ok(v, |JsonSyntax.Text(ToJson(v, t))|)
  {
    var w := new JsonWriter();
    EmptyRefines();
    EmitValue(w, v, t, EMPTY_DOC);
    RecordText(w.State(), ToJson(v, t));
    var text := w.Take();
    WholeText(text);
    ValueRoundTrips(text, 0, v, t, db);
    r := DecodeOne(text, 0, t, db);
  }

  // ---- the failing family ----

  /** The key of member `i` stands somewhere in the text of the members. */
  lemma {:induction false} KeyOccurs(ms: seq<Member>, i: nat, first: bool) returns (at: nat)
    requires i < |ms|
    ensures At(MembersText(ms, first), at, StrText(ms[i].key))
    decreases i
  {
    var start := FirstMemberAt(ms, first);
    var inner;
    if i == 0 {
      inner := KeyInMember(ms[0]);
      AtInside(MembersText(ms, first), start, MemberText(ms[0]), inner, StrText(ms[0].key));
      at := start + inner;
    } else {
      inner := KeyOccurs(ms[1..], i - 1, false);
      AtInside(MembersText(ms, first), start + |MemberText(ms[0])|, MembersText(ms[1..], false), inner, StrText(ms[i].key));
      at := start + |MemberText(ms[0])| + inner;
    }
  }

  lemma {:induction false} FieldKey(vs: seq<Value>, fields: seq<Field>, i: nat)
    requires FieldsHaveType(vs, fields) && i < |vs|
    ensures i < |FieldsJson(vs, fields)| && FieldsJson(vs, fields)[i].key == Escaped(fields[i].name)
    decreases i
  {
    if i > 0 { FieldKey(vs[1..], fields[1..], i - 1); }
  }

  lemma FirstMemberAt(ms: seq<Member>, first: bool) returns (start: nat)
    requires ms != []
    ensures At(MembersText(ms, first), start, MemberText(ms[0]))
    ensures At(MembersText(ms, first), start + |MemberText(ms[0])|, MembersText(ms[1..], false))
  {
    var text := MembersText(ms, first);
    AtSlice(text, 0, text);
    MembersParts(text, 0, ms, first);
    start := |Separator(first)|;
  }

  lemma KeyInMember(m: Member) returns (at: nat)
    ensures At(MemberText(m), at, StrText(m.key))
  {
    AtSlice(MemberText(m), 0, MemberText(m));
    MemberParts(MemberText(m), 0, m);
    at := |m.before|;
  }

  lemma AtInside(text: bytes, p: nat, tail: bytes, q: nat, part: bytes)
    requires At(text, p, tail) && At(tail, q, part)
    ensures At(text, p + q, part)
  {
    forall k | 0 <= k < |part| ensures text[p + q + k] == part[k] {
      AtByte(tail, q, part, k);
      AtByte(text, p, tail, q + k);
    }
  }

  lemma KeyInText(vs: seq<Value>, fields: seq<Field>, i: nat, needle: bytes)
    requires FieldsHaveType(vs, fields) && i < |vs| && StrText(Escaped(fields[i].name)) == needle
    ensures Contains(JsonSyntax.Text(ToJson(Row(vs), Struct(fields))), needle)
  {
    FieldKey(vs, fields, i);
    var at := KeyOccurs(FieldsJson(vs, fields), i, true);
    MembersInText(FieldsJson(vs, fields), at, needle);
  }

  lemma MembersInText(ms: seq<Member>, at: nat, needle: bytes)
    requires At(MembersText(ms, true), at, needle)
    ensures Contains(JsonSyntax.Text(Obj(ms, [])), needle)
  {
    var text := JsonSyntax.Text(Obj(ms, []));
    AtSlice(text, 0, text);
    ObjParts(text, 0, ms, []);
    AtInside(text, 1, MembersText(ms, true), at, needle);
    assert At(text, 1 + at, needle);
    ContainsExact(text, needle);
  }

  lemma NeedlesAreKeys()
    ensures StrText(Escaped(TYPE_KEY)) == TYPE_NEEDLE && StrText(Escaped(VALUE_KEY)) == VALUE_NEEDLE
  {
    TypeKeyIsPlain();
    ValueKeyIsPlain();
    KeyNeedle(TYPE_KEY, TYPE_NEEDLE);
    KeyNeedle(VALUE_KEY, VALUE_NEEDLE);
  }

  lemma TypeKeyIsPlain()
    ensures Verbatim(TYPE_KEY) && TYPE_NEEDLE == [QUOTE] + TYPE_KEY + [QUOTE]
  {
  }

  lemma ValueKeyIsPlain()
    ensures Verbatim(VALUE_KEY) && VALUE_NEEDLE == [QUOTE] + VALUE_KEY + [QUOTE]
  {
  }

  lemma KeyNeedle(key: bytes, needle: bytes)
    requires Verbatim(key) && needle == [QUOTE] + key + [QUOTE]
    ensures StrText(Escaped(key)) == needle
  {
    VerbatimFrom(key, 0);
    assert key[0..] == key;
  }

  /** Every STRUCT with a field called `type` and one called `value` is mistaken for a wrapper, whatever it holds. */
  lemma TypeAndValueFieldsAreMistaken(vs: seq<Value>, fields: seq<Field>, i: nat, j: nat)
    requires HasType(Row(vs), Struct(fields)) && i < |fields| && j < |fields|
    requires fields[i].name == TYPE_KEY && fields[j].name == VALUE_KEY
    ensures LooksWrapped(JsonSyntax.Text(ToJson(Row(vs), Struct(fields)))) && !Unmistakable(Row(vs), Struct(fields))
  {
    NeedlesAreKeys();
    SameLength(vs, fields);
    KeyInText(vs, fields, i, TYPE_NEEDLE);
    KeyInText(vs, fields, j, VALUE_NEEDLE);
  }

  lemma SameLength(vs: seq<Value>, fields: seq<Field>)
    requires FieldsHaveType(vs, fields)
    ensures |vs| == |fields|
  {
  }

  /**
   A concrete family of inputs that do not come back: the row ('INTEGER', 7) with columns
   `type` and `value` is decoded as the number 7, and so for every integer type.
   */
  lemma LookalikeIsUnwrapped(id: ScalarId, n: int, db: Database)
    requires InRange(id, n) && ReadsInt(db, id, n)
    ensures var t := Struct([Field(TYPE_KEY, LogicalType.Scalar(VARCHAR)), Field(VALUE_KEY, LogicalType.Scalar(id))]);
            var v := Row([Value.Text(Ascii(ScalarName(id))), Int(n)]);
            HasType(v, t) && WellFormedJson(ToJson(v, t)) && Meaning(ToJson(v, t), t, db) == Some(Int(n))
  {
    NameIsClean(id);
    ScalarNameParses(id);
    Unwrapped(Ascii(ScalarName(id)), id, n, TYPE_KEY, VALUE_KEY, db);
  }

  lemma Unwrapped(typeText: bytes, id: ScalarId, n: int, typeKey: bytes, valueKey: bytes, db: Database)
    requires InRange(id, n) && ReadsInt(db, id, n) && typeKey == TYPE_KEY && valueKey == VALUE_KEY
    requires WellFormed(typeText) && TypeParser.ParseType(typeText, 0) == Some(LogicalType.Scalar(id))
    ensures var t := Struct([Field(typeKey, LogicalType.Scalar(VARCHAR)), Field(valueKey, LogicalType.Scalar(id))]);
            var v := Row([Value.Text(typeText), Int(n)]);
            HasType(v, t) && WellFormedJson(ToJson(v, t)) && Meaning(ToJson(v, t), t, db) == Some(Int(n))
  {
    var fields := [Field(typeKey, LogicalType.Scalar(VARCHAR)), Field(valueKey, LogicalType.Scalar(id))];
    var vs := [Value.Text(typeText), Int(n)];
    TwoFields(vs, fields);
    TypeAndValueFieldsAreMistaken(vs, fields, 0, 1);
    var ms := UnwrappedMembers(typeText, id, n, db);
    MistakenMeaning(vs, fields, ms, db);
  }

  lemma UnwrappedMembers(typeText: bytes, id: ScalarId, n: int, db: Database) returns (ms: seq<Member>)
    requires InRange(id, n) && ReadsInt(db, id, n)
    requires WellFormed(typeText) && TypeParser.ParseType(typeText, 0) == Some(LogicalType.Scalar(id))
    ensures ms == TwoMembers(typeText, IntJson(id, n)) && MembersOk(ms) && WrapperMeaning(ms, db) == Some(Int(n))
  {
    ms := TwoMembers(typeText, IntJson(id, n));
    IntegerRoundTrip(id, n, db);
    WrapperOfTwo(typeText, IntJson(id, n), LogicalType.Scalar(id), db);
  }

  lemma {:induction false} MistakenMeaning(vs: seq<Value>, fields: seq<Field>, ms: seq<Member>, db: Database)
    requires FieldsHaveType(vs, fields) && FieldsJson(vs, fields) == ms && MembersOk(ms)
    requires LooksWrapped(JsonSyntax.Text(ToJson(Row(vs), Struct(fields))))
    ensures WellFormedJson(ToJson(Row(vs), Struct(fields)))
    ensures Meaning(ToJson(Row(vs), Struct(fields)), Struct(fields), db) == WrapperMeaning(ms, db)
  {
    ObjectMeaning(ms, [], Struct(fields), db, true);
  }

  lemma {:induction false} TwoFields(vs: seq<Value>, fields: seq<Field>)
    requires |vs| == |fields| == 2 && HasType(vs[0], fields[0].fieldType) && HasType(vs[1], fields[1].fieldType)
    ensures FieldsHaveType(vs, fields)
    ensures FieldsJson(vs, fields)
         == [Pair(Escaped(fields[0].name), ToJson(vs[0], fields[0].fieldType)),
             Pair(Escaped(fields[1].name), ToJson(vs[1], fields[1].fieldType))]
  {
    assert vs[1..] == [vs[1]] && fields[1..] == [fields[1]];
    assert vs[1..][1..] == [] && fields[1..][1..] == [];
    assert FieldsHaveType(vs[1..][1..], fields[1..][1..]);
    assert FieldsHaveType(vs[1..], fields[1..]);
    assert FieldsJson(vs[1..][1..], fields[1..][1..]) == [];
    assert FieldsJson(vs[1..], fields[1..]) == [Pair(Escaped(fields[1].name), ToJson(vs[1], fields[1].fieldType))];
  }

  function TwoMembers(typeText: bytes, value: Json): seq<Member> {
    [Pair(Escaped(TYPE_KEY), Str(Escaped(typeText))), Pair(Escaped(VALUE_KEY), value)]
  }

  lemma NameIsClean(id: ScalarId)
    ensures WellFormed(Ascii(ScalarName(id)))
  {
    ScalarNameRoundTrip(id);
    ScalarIsPlain(Ascii(ScalarName(id)), id);
    WellFormedAscii(Ascii(ScalarName(id)), 0);
  }

  lemma ScalarNameParses(id: ScalarId)
    ensures TypeParser.ParseType(Ascii(ScalarName(id)), 0) == Some(LogicalType.Scalar(id))
  {
    TypeRoundTrips(LogicalType.Scalar(id));
    ScalarNameShort(id);
  }

  lemma ScalarNameShort(id: ScalarId)
    ensures |ScalarName(id)| < 20
  {
  }

  lemma WrapperOfTwo(typeText: bytes, value: Json, t: LogicalType, db: Database)
    requires WellFormed(typeText) && WellFormedJson(value) && TypeParser.ParseType(typeText, 0) == Some(t)
    ensures MembersOk(TwoMembers(typeText, value))
    ensures WrapperMeaning(TwoMembers(typeText, value), db) == Meaning(value, t, db)
  {
    var ms := TwoMembers(typeText, value);
    KeysAreClean();
    EscapedIsFaithful(typeText);
    TwoOk(ms[0], ms[1]);
    LastOfTwo(ms[0], ms[1], TYPE_KEY);
    LastOfTwo(ms[0], ms[1], VALUE_KEY);
    WrapperMeaningIs(ms, 0, 1, Some(t), db);
  }

  lemma TwoOk(a: Member, b: Member)
    requires MemberOk(a) && MemberOk(b)
    ensures MembersOk([a, b]) && MembersOk([b])
    ensures TypesAreStrings([a, b]) <==> (UnitsValue(a.key) == TYPE_KEY ==> a.slot.value.Str?)
                                         && (UnitsValue(b.key) == TYPE_KEY ==> b.slot.value.Str?)
  {
    assert [a, b][1..] == [b] && [b][1..] == [];
    assert MembersOk([b]);
    assert TypesAreStrings([b]) <==> (UnitsValue(b.key) == TYPE_KEY ==> b.slot.value.Str?);
  }

  lemma LastOfTwo(a: Member, b: Member, name: bytes)
    requires MemberOk(a) && MemberOk(b) && MembersOk([a, b])
    ensures LastMember([a, b], name)
         == if UnitsValue(b.key) == name then Some(1) else if UnitsValue(a.key) == name then Some(0) else None
  {
    assert [a, b][1..] == [b] && [b][1..] == [];
    assert LastMember([b], name) == if UnitsValue(b.key) == name then Some(0) else None;
  }

  lemma KeysAreClean()
    ensures UnitsOk(Escaped(TYPE_KEY)) && UnitsValue(Escaped(TYPE_KEY)) == TYPE_KEY
    ensures UnitsOk(Escaped(VALUE_KEY)) && UnitsValue(Escaped(VALUE_KEY)) == VALUE_KEY
    ensures TYPE_KEY != VALUE_KEY
  {
    WellFormedAscii(TYPE_KEY, 0);
    WellFormedAscii(VALUE_KEY, 0);
    EscapedIsFaithful(TYPE_KEY);
    EscapedIsFaithful(VALUE_KEY);
    assert TYPE_KEY[0] != VALUE_KEY[0];
  }
}
