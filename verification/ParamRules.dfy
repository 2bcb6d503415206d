/**
 The rules of nested parameters, without recursion or order of evaluation: exactly when an array
 or an object is accepted, and as which value, said by what each of its items and members means.
 */
module ParamRules {
  import opened Bytes
  import opened JsonSyntax
  import opened JsonScan
  import opened Types
  import opened ParamDecoder
  import opened JsonMeaning
  import opened ParamList
  import TypeParser

  // ---- arrays ----

  /** As many values as items, each what its item means. */
  predicate ItemsMean(items: seq<Slot>, child: LogicalType, vs: seq<Value>, db: Database)
    requires ItemsOk(items)
  {
    |vs| == |items| && forall i :: 0 <= i < |items| ==> ItemMeaning(items, i, child, db) == Some(vs[i])
  }

  lemma {:induction false} ItemsMeanIs(items: seq<Slot>, child: LogicalType, vs: seq<Value>, db: Database)
    requires ItemsOk(items)
    ensures ItemsMeaning(items, child, db) == Some(vs) <==> ItemsMean(items, child, vs, db)
    decreases |items|
  {
    if items != [] && vs != [] {
      ItemsMeanIs(items[1..], child, vs[1..], db);
      forall i | 1 <= i < |items| ensures ItemMeaning(items, i, child, db) == ItemMeaning(items[1..], i - 1, child, db) {
        assert items[i] == items[1..][i - 1];
      }
      assert ItemMeaning(items, 0, child, db) == Meaning(items[0].value, child, db);
      assert vs == [vs[0]] + vs[1..];
    }
  }

  /** An entry of a MAP: an array of exactly a key and a value. */
  predicate EntryMeans(j: Json, key: LogicalType, value: LogicalType, e: Entry, db: Database)
    requires WellFormedJson(j)
  {
    && j.Arr? && |j.items| == 2
    && ItemMeaning(j.items, 0, key, db) == Some(e.key) && ItemMeaning(j.items, 1, value, db) == Some(e.value)
  }

  function EntryOf(items: seq<Slot>, i: nat, key: LogicalType, value: LogicalType, db: Database): Option<Entry>
    requires ItemsOk(items) && i < |items|
  {
    ItemOkAt(items, i);
    EntryMeaning(items[i].value, key, value, db)
  }

  predicate EntriesMean(items: seq<Slot>, key: LogicalType, value: LogicalType, es: seq<Entry>, db: Database)
    requires ItemsOk(items)
  {
    |es| == |items| && forall i :: 0 <= i < |items| ==> EntryOf(items, i, key, value, db) == Some(es[i])
  }

  /** Each of them is what its item means as a pair. */
  lemma EntryMeansIs(j: Json, key: LogicalType, value: LogicalType, e: Entry, db: Database)
    requires WellFormedJson(j)
    ensures EntryMeaning(j, key, value, db) == Some(e) <==> EntryMeans(j, key, value, e, db)
  {
  }

  lemma {:induction false} EntriesMeanIs(items: seq<Slot>, key: LogicalType, value: LogicalType, es: seq<Entry>, db: Database)
    requires ItemsOk(items)
    ensures EntriesMeaning(items, key, value, db) == Some(es) <==> EntriesMean(items, key, value, es, db)
    decreases |items|
  {
    if items != [] && es != [] {
      EntriesMeanIs(items[1..], key, value, es[1..], db);
      forall i | 1 <= i < |items| ensures EntryOf(items, i, key, value, db) == EntryOf(items[1..], i - 1, key, value, db) {
        LaterEntry(items, i, key, value, db);
      }
      FirstEntry(items, key, value, es, db);
    }
  }

  lemma LaterEntry(items: seq<Slot>, i: nat, key: LogicalType, value: LogicalType, db: Database)
    requires ItemsOk(items) && 1 <= i < |items|
    ensures EntryOf(items, i, key, value, db) == EntryOf(items[1..], i - 1, key, value, db)
  {
    assert items[i] == items[1..][i - 1];
  }

  lemma FirstEntry(items: seq<Slot>, key: LogicalType, value: LogicalType, es: seq<Entry>, db: Database)
    requires ItemsOk(items) && items != [] && es != []
    ensures EntriesMeaning(items, key, value, db) == Some(es)
            <==> EntryOf(items, 0, key, value, db) == Some(es[0]) && EntriesMeaning(items[1..], key, value, db) == Some(es[1..])
  {
    assert es == [es[0]] + es[1..];
  }

  /**
   Exactly when an array is accepted: at LIST, at ARRAY of its own length, or at MAP if its items
   are pairs; each item has a meaning; and the database makes a value of them.
   */
  lemma {:induction false} ArrayRule(json: bytes, p: nat, items: seq<Slot>, pad: bytes, t: LogicalType, db: Database, v: Value)
    requires WellFormedJson(Arr(items, pad)) && At(json, p, JsonSyntax.Text(Arr(items, pad)))
    ensures DecodeOneAt(json, p, t, db) == Ok(v, p + |JsonSyntax.Text(Arr(items, pad))|) <==> ArrayGives(items, t, v, db)
  {
    DecodeAgrees(json, p, Arr(items, pad), t, db);
    ArrayGivesIs(items, t, v, db);
  }

  ghost predicate ArrayGives(items: seq<Slot>, t: LogicalType, v: Value, db: Database)
    requires ItemsOk(items)
  {
    match t
    case List(child) => exists vs :: ItemsMean(items, child, vs, db) && db.convert(Elements(vs), t) == Some(v)
    case Array(child, size) =>
      |items| == size && exists vs :: ItemsMean(items, child, vs, db) && db.convert(Elements(vs), t) == Some(v)
    case Map(key, value) => exists es :: EntriesMean(items, key, value, es, db) && db.convert(Pairs(es), t) == Some(v)
    case _ => false
  }

  lemma {:induction false} ArrayGivesIs(items: seq<Slot>, t: LogicalType, v: Value, db: Database)
    requires ItemsOk(items)
    ensures ArrayMeans(items, t, db) == Some(v) <==> ArrayGives(items, t, v, db)
  {
    match t
    case List(child) => forall vs { ItemsMeanIs(items, child, vs, db); }
    case Array(child, size) => forall vs { ItemsMeanIs(items, child, vs, db); }
    case Map(key, value) => forall es { EntriesMeanIs(items, key, value, es, db); }
    case _ =>
  }

  // ---- members ----

  /** The name of member `k`. */
  function Key(ms: seq<Member>, k: nat): bytes
    requires MembersOk(ms) && k < |ms|
  {
    MemberOkAt(ms, k);
    UnitsValue(ms[k].key)
  }

  function MemberMeaning(ms: seq<Member>, k: nat, t: LogicalType, db: Database): Option<Value>
    requires MembersOk(ms) && k < |ms|
  {
    MemberOkAt(ms, k);
    Meaning(ms[k].slot.value, t, db)
  }

  /** The field that member `k` names: the first whose name is the same but for case. */
  function FieldOf(ms: seq<Member>, k: nat, fields: seq<Field>): Option<nat>
    requires MembersOk(ms) && k < |ms|
  {
    FieldIndex(fields, Key(ms, k), 0)
  }

  /**
   The members of a STRUCT: each names a field, no two the same one, and each has a meaning at the
   type of its field; the fields that are not named stay as they were.
   */
  predicate Fills(ms: seq<Member>, fields: seq<Field>, start: seq<Option<Value>>, filled: seq<Option<Value>>, db: Database)
    requires MembersOk(ms) && |start| == |fields|
  {
    && |filled| == |fields|
    && (forall k :: 0 <= k < |ms| ==> Placed(ms, k, fields, start, filled, db))
    && (forall k, l :: 0 <= k < l < |ms| ==> FieldOf(ms, k, fields) != FieldOf(ms, l, fields))
    && (forall i :: 0 <= i < |fields| && Unnamed(ms, fields, i) ==> filled[i] == start[i])
  }

  predicate Placed(ms: seq<Member>, k: nat, fields: seq<Field>, start: seq<Option<Value>>, filled: seq<Option<Value>>, db: Database)
    requires MembersOk(ms) && k < |ms| && |start| == |filled| == |fields|
  {
    var i := FieldOf(ms, k, fields);
    i.Some? && start[i.value].None? && filled[i.value].Some?
    && filled[i.value] == MemberMeaning(ms, k, fields[i.value].fieldType, db)
  }

  predicate Unnamed(ms: seq<Member>, fields: seq<Field>, i: nat)
    requires MembersOk(ms)
  {
    forall k :: 0 <= k < |ms| ==> FieldOf(ms, k, fields) != Some(i)
  }

  lemma LaterMember(ms: seq<Member>, k: nat, t: LogicalType, fields: seq<Field>, db: Database)
    requires MembersOk(ms) && 1 <= k < |ms|
    ensures Key(ms, k) == Key(ms[1..], k - 1) && FieldOf(ms, k, fields) == FieldOf(ms[1..], k - 1, fields)
    ensures MemberMeaning(ms, k, t, db) == MemberMeaning(ms[1..], k - 1, t, db)
  {
    assert ms[k] == ms[1..][k - 1];
  }

  lemma {:induction false} FirstFills(ms: seq<Member>, fields: seq<Field>, start: seq<Option<Value>>, next: seq<Option<Value>>, i: nat, v: Value,
                   filled: seq<Option<Value>>, db: Database)
    requires ms != [] && MembersOk(ms) && |start| == |fields| && FieldOf(ms, 0, fields) == Some(i) && i < |fields|
    requires start[i].None? && MemberMeaning(ms, 0, fields[i].fieldType, db) == Some(v) && next == start[i := Some(v)]
    ensures Fills(ms, fields, start, filled, db) <==> Fills(ms[1..], fields, next, filled, db)
  {
    var rest := ms[1..];
    forall k | 1 <= k < |ms| ensures FieldOf(ms, k, fields) == FieldOf(rest, k - 1, fields) {
      LaterMember(ms, k, Any, fields, db);
    }
    if Fills(ms, fields, start, filled, db) {
      RestFills(ms, rest, fields, start, next, i, v, filled, db);
    }
    if Fills(rest, fields, next, filled, db) {
      AllFill(ms, rest, fields, start, next, i, v, filled, db);
    }
  }

  lemma {:induction false} RestFills(ms: seq<Member>, rest: seq<Member>, fields: seq<Field>, start: seq<Option<Value>>, next: seq<Option<Value>>, i: nat,
    v: Value, filled: seq<Option<Value>>, db: Database)
    requires ms != [] && MembersOk(ms) && rest == ms[1..] && |start| == |filled| == |fields| && FieldOf(ms, 0, fields) == Some(i)
    requires i < |fields| && start[i].None? && MemberMeaning(ms, 0, fields[i].fieldType, db) == Some(v) && next == start[i := Some(v)]
    requires forall k :: 1 <= k < |ms| ==> FieldOf(ms, k, fields) == FieldOf(rest, k - 1, fields)
    requires Fills(ms, fields, start, filled, db)
    ensures Fills(rest, fields, next, filled, db)
  {
    RestPlaced(ms, rest, fields, start, next, i, v, filled, db);
    forall k, l | 0 <= k < l < |rest| ensures FieldOf(rest, k, fields) != FieldOf(rest, l, fields) {
      assert FieldOf(ms, k + 1, fields) != FieldOf(ms, l + 1, fields);
    }
    RestUntouched(ms, rest, fields, start, next, i, v, filled, db);
  }

  lemma {:induction false} RestPlaced(ms: seq<Member>, rest: seq<Member>, fields: seq<Field>, start: seq<Option<Value>>, next: seq<Option<Value>>, i: nat,
    v: Value, filled: seq<Option<Value>>, db: Database)
    requires ms != [] && MembersOk(ms) && rest == ms[1..] && |start| == |filled| == |fields| && FieldOf(ms, 0, fields) == Some(i)
    requires i < |fields| && start[i].None? && MemberMeaning(ms, 0, fields[i].fieldType, db) == Some(v) && next == start[i := Some(v)]
    requires forall k :: 1 <= k < |ms| ==> FieldOf(ms, k, fields) == FieldOf(rest, k - 1, fields)
    requires forall k :: 0 <= k < |ms| ==> Placed(ms, k, fields, start, filled, db)
    requires forall k, l :: 0 <= k < l < |ms| ==> FieldOf(ms, k, fields) != FieldOf(ms, l, fields)
    ensures forall k :: 0 <= k < |rest| ==> Placed(rest, k, fields, next, filled, db)
  {
    forall k | 0 <= k < |rest| ensures Placed(rest, k, fields, next, filled, db) {
      assert Placed(ms, k + 1, fields, start, filled, db) && FieldOf(ms, 0, fields) != FieldOf(ms, k + 1, fields);
      LaterMember(ms, k + 1, fields[FieldOf(ms, k + 1, fields).value].fieldType, fields, db);
    }
  }

  lemma {:induction false} RestUntouched(ms: seq<Member>, rest: seq<Member>, fields: seq<Field>, start: seq<Option<Value>>, next: seq<Option<Value>>, i: nat,
    v: Value, filled: seq<Option<Value>>, db: Database)
    requires ms != [] && MembersOk(ms) && rest == ms[1..] && |start| == |filled| == |fields| && FieldOf(ms, 0, fields) == Some(i)
    requires i < |fields| && start[i].None? && MemberMeaning(ms, 0, fields[i].fieldType, db) == Some(v) && next == start[i := Some(v)]
    requires forall k :: 1 <= k < |ms| ==> FieldOf(ms, k, fields) == FieldOf(rest, k - 1, fields)
    requires Placed(ms, 0, fields, start, filled, db)
    requires forall f :: 0 <= f < |fields| && Unnamed(ms, fields, f) ==> filled[f] == start[f]
    ensures forall f :: 0 <= f < |fields| && Unnamed(rest, fields, f) ==> filled[f] == next[f]
  {
    forall f | 0 <= f < |fields| && Unnamed(rest, fields, f) ensures filled[f] == next[f] {
      if f != i {
        forall k | 0 <= k < |ms| ensures FieldOf(ms, k, fields) != Some(f) {
          if k > 0 { assert FieldOf(rest, k - 1, fields) != Some(f); }
        }
        assert Unnamed(ms, fields, f);
      }
    }
  }

  lemma {:induction false} AllFill(ms: seq<Member>, rest: seq<Member>, fields: seq<Field>, start: seq<Option<Value>>, next: seq<Option<Value>>, i: nat,
    v: Value, filled: seq<Option<Value>>, db: Database)
    requires ms != [] && MembersOk(ms) && rest == ms[1..] && |start| == |filled| == |fields| && FieldOf(ms, 0, fields) == Some(i)
    requires i < |fields| && start[i].None? && MemberMeaning(ms, 0, fields[i].fieldType, db) == Some(v) && next == start[i := Some(v)]
    requires forall k :: 1 <= k < |ms| ==> FieldOf(ms, k, fields) == FieldOf(rest, k - 1, fields)
    requires Fills(rest, fields, next, filled, db)
    ensures Fills(ms, fields, start, filled, db)
  {
    forall k | 0 <= k < |rest| ensures FieldOf(rest, k, fields) != Some(i) { assert Placed(rest, k, fields, next, filled, db); }
    assert Unnamed(rest, fields, i);
    AllPlaced(ms, rest, fields, start, next, i, v, filled, db);
    AllDiffer(ms, rest, fields, i);
    AllUntouched(ms, rest, fields, start, next, i, v, filled, db);
  }

  lemma {:induction false} AllPlaced(ms: seq<Member>, rest: seq<Member>, fields: seq<Field>, start: seq<Option<Value>>, next: seq<Option<Value>>, i: nat,
    v: Value, filled: seq<Option<Value>>, db: Database)
    requires ms != [] && MembersOk(ms) && rest == ms[1..] && |start| == |filled| == |fields| && FieldOf(ms, 0, fields) == Some(i)
    requires i < |fields| && start[i].None? && MemberMeaning(ms, 0, fields[i].fieldType, db) == Some(v) && next == start[i := Some(v)]
    requires forall k :: 1 <= k < |ms| ==> FieldOf(ms, k, fields) == FieldOf(rest, k - 1, fields)
    requires filled[i] == Some(v) && forall k :: 0 <= k < |rest| ==> Placed(rest, k, fields, next, filled, db)
    ensures forall k :: 0 <= k < |ms| ==> Placed(ms, k, fields, start, filled, db)
  {
    forall k | 0 <= k < |ms| ensures Placed(ms, k, fields, start, filled, db) {
      if k > 0 {
        assert Placed(rest, k - 1, fields, next, filled, db);
        LaterMember(ms, k, fields[FieldOf(rest, k - 1, fields).value].fieldType, fields, db);
      }
    }
  }

  lemma {:induction false} AllDiffer(ms: seq<Member>, rest: seq<Member>, fields: seq<Field>, i: nat)
    requires ms != [] && MembersOk(ms) && rest == ms[1..] && FieldOf(ms, 0, fields) == Some(i)
    requires forall k :: 1 <= k < |ms| ==> FieldOf(ms, k, fields) == FieldOf(rest, k - 1, fields)
    requires forall k :: 0 <= k < |rest| ==> FieldOf(rest, k, fields) != Some(i)
    requires forall k, l :: 0 <= k < l < |rest| ==> FieldOf(rest, k, fields) != FieldOf(rest, l, fields)
    ensures forall k, l :: 0 <= k < l < |ms| ==> FieldOf(ms, k, fields) != FieldOf(ms, l, fields)
  {
    forall k, l | 0 <= k < l < |ms| ensures FieldOf(ms, k, fields) != FieldOf(ms, l, fields) {
      assert FieldOf(ms, l, fields) == FieldOf(rest, l - 1, fields);
      if k > 0 { assert FieldOf(rest, k - 1, fields) != FieldOf(rest, l - 1, fields); }
    }
  }

  lemma {:induction false} AllUntouched(ms: seq<Member>, rest: seq<Member>, fields: seq<Field>, start: seq<Option<Value>>, next: seq<Option<Value>>, i: nat,
    v: Value, filled: seq<Option<Value>>, db: Database)
    requires ms != [] && MembersOk(ms) && rest == ms[1..] && |start| == |filled| == |fields| && FieldOf(ms, 0, fields) == Some(i)
    requires i < |fields| && start[i].None? && MemberMeaning(ms, 0, fields[i].fieldType, db) == Some(v) && next == start[i := Some(v)]
    requires forall k :: 1 <= k < |ms| ==> FieldOf(ms, k, fields) == FieldOf(rest, k - 1, fields)
    requires forall f :: 0 <= f < |fields| && Unnamed(rest, fields, f) ==> filled[f] == next[f]
    ensures forall f :: 0 <= f < |fields| && Unnamed(ms, fields, f) ==> filled[f] == start[f]
  {
    forall f | 0 <= f < |fields| && Unnamed(ms, fields, f) ensures filled[f] == start[f] {
      forall k | 0 <= k < |rest| ensures FieldOf(rest, k, fields) != Some(f) { assert FieldOf(ms, k + 1, fields) != Some(f); }
      assert Unnamed(rest, fields, f) && FieldOf(ms, 0, fields) != Some(f);
    }
  }

  lemma {:induction false} FillsIs(ms: seq<Member>, fields: seq<Field>, start: seq<Option<Value>>, filled: seq<Option<Value>>, db: Database)
    requires MembersOk(ms) && |start| == |fields|
    ensures MembersMeaning(ms, fields, start, db) == Some(filled) <==> Fills(ms, fields, start, filled, db)
    decreases |ms|
  {
    if ms == [] {
      if |filled| == |fields| && Fills(ms, fields, start, filled, db) {
        forall i | 0 <= i < |fields| ensures filled[i] == start[i] { assert Unnamed(ms, fields, i); }
        assert filled == start;
      }
    } else {
      var i := FieldOf(ms, 0, fields);
      assert i == FieldIndex(fields, UnitsValue(ms[0].key), 0);
      if i.Some? && start[i.value].None? && MemberMeaning(ms, 0, fields[i.value].fieldType, db).Some? {
        var v := MemberMeaning(ms, 0, fields[i.value].fieldType, db).value;
        FillsIs(ms[1..], fields, start[i.value := Some(v)], filled, db);
        FirstFills(ms, fields, start, start[i.value := Some(v)], i.value, v, filled, db);
      } else {
        assert Fills(ms, fields, start, filled, db) ==> Placed(ms, 0, fields, start, filled, db);
      }
    }
  }

  // ---- objects ----

  /** `k` is the last member called `name`. */
  predicate IsLast(ms: seq<Member>, name: bytes, k: nat)
    requires MembersOk(ms)
  {
    k < |ms| && Key(ms, k) == name && forall l :: k < l < |ms| ==> Key(ms, l) != name
  }

  lemma {:induction false} LastMemberIs(ms: seq<Member>, name: bytes, k: nat)
    requires MembersOk(ms)
    ensures LastMember(ms, name) == Some(k) <==> IsLast(ms, name, k)
    decreases |ms|
  {
    if ms != [] {
      var last := LastMember(ms[1..], name);
      forall l | 1 <= l < |ms| ensures Key(ms, l) == Key(ms[1..], l - 1) { assert ms[l] == ms[1..][l - 1]; }
      assert Key(ms, 0) == UnitsValue(ms[0].key);
      if last.Some? {
        LastMemberIs(ms[1..], name, last.value);
        OnlyLast(ms, name, last.value, k);
      } else {
        forall l | 1 <= l < |ms| ensures Key(ms, l) != name { NoMember(ms[1..], name, l - 1); }
      }
    }
  }

  lemma {:induction false} OnlyLast(ms: seq<Member>, name: bytes, last: nat, k: nat)
    requires ms != [] && MembersOk(ms) && IsLast(ms[1..], name, last)
    requires forall l :: 1 <= l < |ms| ==> Key(ms, l) == Key(ms[1..], l - 1)
    ensures IsLast(ms, name, k) <==> k == last + 1
  {
    assert Key(ms, last + 1) == name;
    forall l | last + 1 < l < |ms| ensures Key(ms, l) != name { assert Key(ms[1..], l - 1) != name; }
  }

  lemma {:induction false} NoMember(ms: seq<Member>, name: bytes, l: nat)
    requires MembersOk(ms) && l < |ms| && LastMember(ms, name).None?
    ensures Key(ms, l) != name
    decreases l
  {
    if l > 0 {
      NoMember(ms[1..], name, l - 1);
      assert ms[l] == ms[1..][l - 1];
    }
  }

  lemma {:induction false} TypesAreStringsIs(ms: seq<Member>)
    requires MembersOk(ms)
    ensures TypesAreStrings(ms) <==> forall k :: 0 <= k < |ms| && Key(ms, k) == TYPE_KEY ==> ms[k].slot.value.Str?
    decreases |ms|
  {
    if ms != [] {
      TypesAreStringsIs(ms[1..]);
      forall k | 1 <= k < |ms| ensures Key(ms, k) == Key(ms[1..], k - 1) { assert ms[k] == ms[1..][k - 1]; }
      assert Key(ms, 0) == UnitsValue(ms[0].key);
      assert forall k :: 1 <= k < |ms| ==> ms[k] == ms[1..][k - 1];
    }
  }

  /** The string member `k` stands for. */
  function StringAtKey(ms: seq<Member>, k: nat): bytes
    requires MembersOk(ms) && k < |ms| && ms[k].slot.value.Str?
  {
    MemberOkAt(ms, k);
    UnitsValue(ms[k].slot.value.units)
  }

  /**
   What a wrapper gives: every member called `type` is a string, the last of them spells a type,
   and the last one called `value` means the value at that type.
   */
  ghost predicate WrapperGives(ms: seq<Member>, v: Value, db: Database)
    requires MembersOk(ms)
  {
    && (forall k :: 0 <= k < |ms| && Key(ms, k) == Ascii("type") ==> ms[k].slot.value.Str?)
    && exists ti, vi :: IsLast(ms, Ascii("type"), ti) && IsLast(ms, Ascii("value"), vi) && Reads(ms, ti, vi, v, db)
  }

  predicate Reads(ms: seq<Member>, ti: nat, vi: nat, v: Value, db: Database)
    requires MembersOk(ms) && ti < |ms| && vi < |ms|
  {
    ms[ti].slot.value.Str?
    && match TypeParser.ParseType(StringAtKey(ms, ti), 0)
       case None => false
       case Some(t) => MemberMeaning(ms, vi, t, db) == Some(v)
  }

  lemma {:induction false} WrapperGivesIs(ms: seq<Member>, v: Value, db: Database)
    requires MembersOk(ms) && TYPE_KEY == Ascii("type") && VALUE_KEY == Ascii("value")
    ensures WrapperMeaning(ms, db) == Some(v) <==> WrapperGives(ms, v, db)
  {
    TypesAreStringsIs(ms);
    if WrapperMeaning(ms, db) == Some(v) {
      var ti, vi := LastMember(ms, TYPE_KEY).value, LastMember(ms, VALUE_KEY).value;
      LastMemberIs(ms, TYPE_KEY, ti);
      LastMemberIs(ms, VALUE_KEY, vi);
      ReadsIs(ms, ti, vi, v, db);
    }
    if WrapperGives(ms, v, db) {
      var ti, vi :| IsLast(ms, TYPE_KEY, ti) && IsLast(ms, VALUE_KEY, vi) && Reads(ms, ti, vi, v, db);
      LastMemberIs(ms, TYPE_KEY, ti);
      LastMemberIs(ms, VALUE_KEY, vi);
      ReadsIs(ms, ti, vi, v, db);
    }
  }

  lemma ReadsIs(ms: seq<Member>, ti: nat, vi: nat, v: Value, db: Database)
    requires MembersOk(ms) && ti < |ms| && vi < |ms|
    ensures TypedMeaning(ms, ti, vi, db) == Some(v) <==> Reads(ms, ti, vi, v, db)
  {
  }

  lemma KeyLiterals()
    ensures TYPE_KEY == Ascii("type") && VALUE_KEY == Ascii("value")
    ensures TYPE_NEEDLE == Ascii("\"type\"") && VALUE_NEEDLE == Ascii("\"value\"")
  {
  }

  /** Both names stand in quotes somewhere in the text. */
  ghost predicate BothQuoted(text: bytes) {
    (exists k: nat :: At(text, k, Ascii("\"type\""))) && (exists k: nat :: At(text, k, Ascii("\"value\"")))
  }

  lemma BothQuotedIs(text: bytes)
    ensures LooksWrapped(text) <==> BothQuoted(text)
  {
    KeyLiterals();
    ContainsExact(text, TYPE_NEEDLE);
    ContainsExact(text, VALUE_NEEDLE);
  }

  ghost predicate ObjectGives(ms: seq<Member>, pad: bytes, t: LogicalType, v: Value, db: Database)
    requires MembersOk(ms)
  {
    if BothQuoted(JsonSyntax.Text(Obj(ms, pad))) then WrapperGives(ms, v, db)
    else
      t.Struct? && exists filled :: Fills(ms, t.fields, Unfilled(|t.fields|), filled, db)
                                    && db.convert(Row(Backfill(filled)), t) == Some(v)
  }

  lemma {:induction false} ObjectGivesIs(ms: seq<Member>, pad: bytes, t: LogicalType, v: Value, db: Database)
    requires MembersOk(ms)
    ensures ObjectMeans(ms, pad, t, db) == Some(v) <==> ObjectGives(ms, pad, t, v, db)
  {
    var wrapped := LooksWrapped(JsonSyntax.Text(Obj(ms, pad)));
    BothQuotedIs(JsonSyntax.Text(Obj(ms, pad)));
    ObjectMeaning(ms, pad, t, db, wrapped);
    if wrapped {
      KeyLiterals();
      WrapperGivesIs(ms, v, db);
    } else if t.Struct? {
      forall filled { FillsIs(ms, t.fields, Unfilled(|t.fields|), filled, db); }
    }
  }

  /**
   Exactly when an object is accepted. If its text has both "type" and "value" in quotes it is a
   wrapper, whatever type is expected; otherwise it must be a STRUCT whose members name different
   fields, the others becoming NULL.
   */
  lemma {:induction false} ObjectRule(json: bytes, p: nat, text: bytes, ms: seq<Member>, pad: bytes, t: LogicalType, db: Database, v: Value)
    requires WellFormedJson(Obj(ms, pad)) && text == JsonSyntax.Text(Obj(ms, pad)) && At(json, p, text)
    ensures DecodeOneAt(json, p, t, db) == Ok(v, p + |text|) <==> ObjectGives(ms, pad, t, v, db)
  {
    ObjectDecodes(json, p, text, Obj(ms, pad), ms, pad, t, db, v);
    ObjectGivesIs(ms, pad, t, v, db);
  }

  lemma {:induction false} ObjectDecodes(json: bytes, p: nat, text: bytes, j: Json, ms: seq<Member>, pad: bytes, t: LogicalType,
                                         db: Database, v: Value)
    requires j == Obj(ms, pad) && WellFormedJson(j) && text == JsonSyntax.Text(j) && At(json, p, text)
    ensures DecodeOneAt(json, p, t, db) == Ok(v, p + |text|) <==> ObjectMeans(ms, pad, t, db) == Some(v)
  {
    DecodeAgrees(json, p, j, t, db);
  }
}
