/**
 What a JSON text means as a parameter, said on syntax trees, without positions; and the
 proof that the decoder computes exactly this on every well-formed text, whatever its
 whitespace, its escapes and what follows it.
 */
module JsonMeaning {
  import opened Bytes
  import opened JsonSyntax
  import opened JsonScan
  import opened Types
  import opened TypeParser
  import opened ParamDecoder

  /** The last member called `name`. */
  function LastMember(ms: seq<Member>, name: bytes): (i: Option<nat>)
    requires MembersOk(ms)
    ensures i.Some? ==> i.value < |ms|
  {
    if ms == [] then None
    else
      match LastMember(ms[1..], name)
      case Some(i) => Some(i + 1)
      case None => if UnitsValue(ms[0].key) == name then Some(0) else None
  }

  lemma {:induction false} MemberOkAt(ms: seq<Member>, i: nat)
    requires MembersOk(ms) && i < |ms|
    ensures MemberOk(ms[i])
    decreases i
  {
    if i > 0 { MemberOkAt(ms[1..], i - 1); }
  }

  /** Every member called "type" is a string: otherwise a wrapper is refused. */
  predicate TypesAreStrings(ms: seq<Member>)
    requires MembersOk(ms)
  {
    ms == [] || ((UnitsValue(ms[0].key) == TYPE_KEY ==> ms[0].slot.value.Str?) && TypesAreStrings(ms[1..]))
  }

  function Meaning(j: Json, t: LogicalType, db: Database): Option<Value>
    requires WellFormedJson(j)
    decreases j, 2
  {
    match j
    case Null => Some(Value.Null)
    case True => CoerceBool(true, t, db)
    case False => CoerceBool(false, t, db)
    case Num(text) => CoerceNumber(text, t, db)
    case Str(units) => CoerceString(UnitsValue(units), t, db)
    case Obj(members, pad) => ObjectMeans(members, pad, t, db)
    case Arr(items, _) => ArrayMeans(items, t, db)
  }

  function ObjectMeans(ms: seq<Member>, pad: bytes, t: LogicalType, db: Database): Option<Value>
    requires MembersOk(ms)
    decreases ms, 6
  {
    if LooksWrapped(JsonSyntax.Text(Obj(ms, pad))) then WrapperMeaning(ms, db)
    else if !t.Struct? then None
    else
      match MembersMeaning(ms, t.fields, Unfilled(|t.fields|), db)
      case None => None
      case Some(filled) => db.convert(Row(Backfill(filled)), t)
  }

  function ArrayMeans(items: seq<Slot>, t: LogicalType, db: Database): Option<Value>
    requires ItemsOk(items)
    decreases items, 6
  {
    match t
    case List(child) =>
      (match ItemsMeaning(items, child, db)
       case None => None
       case Some(vs) => db.convert(Elements(vs), t))
    case Array(child, size) =>
      (match ItemsMeaning(items, child, db)
       case None => None
       case Some(vs) => if |vs| != size then None else db.convert(Elements(vs), t))
    case Map(key, value) =>
      (match EntriesMeaning(items, key, value, db)
       case None => None
       case Some(es) => db.convert(Pairs(es), t))
    case _ => None
  }

  function ItemsMeaning(items: seq<Slot>, child: LogicalType, db: Database): Option<seq<Value>>
    requires ItemsOk(items)
    decreases items, 5
  {
    if items == [] then Some([])
    else
      match Meaning(items[0].value, child, db)
      case None => None
      case Some(v) =>
        match ItemsMeaning(items[1..], child, db)
        case None => None
        case Some(vs) => Some([v] + vs)
  }

  lemma SecondItemOk(items: seq<Slot>)
    requires ItemsOk(items) && |items| == 2
    ensures WellFormedJson(items[1].value)
  {
    assert items[1..][0] == items[1];
    assert ItemsOk(items[1..]);
  }

  /** A MAP entry is an array of exactly two values. */
  function EntryMeaning(j: Json, key: LogicalType, value: LogicalType, db: Database): Option<Entry>
    requires WellFormedJson(j)
    decreases j, 3
  {
    if !j.Arr? || |j.items| != 2 then None
    else
      SecondItemOk(j.items);
      match Meaning(j.items[0].value, key, db)
      case None => None
      case Some(k) =>
        match Meaning(j.items[1].value, value, db)
        case None => None
        case Some(v) => Some(Entry(k, v))
  }

  function EntriesMeaning(items: seq<Slot>, key: LogicalType, value: LogicalType, db: Database): Option<seq<Entry>>
    requires ItemsOk(items)
    decreases items, 5
  {
    if items == [] then Some([])
    else
      match EntryMeaning(items[0].value, key, value, db)
      case None => None
      case Some(e) =>
        match EntriesMeaning(items[1..], key, value, db)
        case None => None
        case Some(es) => Some([e] + es)
  }

  /** Members fill the fields they name but for case; an unknown or repeated one is refused. */
  function MembersMeaning(ms: seq<Member>, fields: seq<Field>, filled: seq<Option<Value>>, db: Database)
    : (r: Option<seq<Option<Value>>>)
    requires MembersOk(ms) && |filled| == |fields|
    ensures r.Some? ==> |r.value| == |fields|
    decreases ms, 5
  {
    if ms == [] then Some(filled)
    else
      match FieldIndex(fields, UnitsValue(ms[0].key), 0)
      case None => None
      case Some(i) =>
        if filled[i].Some? then None
        else
          match Meaning(ms[0].slot.value, fields[i].fieldType, db)
          case None => None
          case Some(v) => MembersMeaning(ms[1..], fields, filled[i := Some(v)], db)
  }

  /** Mode B: the value member read at the type its type member spells. */
  function WrapperMeaning(ms: seq<Member>, db: Database): Option<Value>
    requires MembersOk(ms)
    decreases ms, 5
  {
    var ti := LastMember(ms, TYPE_KEY);
    var vi := LastMember(ms, VALUE_KEY);
    if !TypesAreStrings(ms) || ti.None? || vi.None? then None
    else TypedMeaning(ms, ti.value, vi.value, db)
  }

  function TypedMeaning(ms: seq<Member>, ti: nat, vi: nat, db: Database): Option<Value>
    requires MembersOk(ms) && ti < |ms| && vi < |ms|
    decreases ms, 4
  {
    MemberOkAt(ms, ti);
    MemberOkAt(ms, vi);
    if !ms[ti].slot.value.Str? then None
    else
      match ParseType(UnitsValue(ms[ti].slot.value.units), 0)
      case None => None
      case Some(t) => Meaning(ms[vi].slot.value, t, db)
  }

  // ---- what follows a value ----

  /** A number must not be followed by a byte that could be part of it. */
  predicate NumberEnds(json: bytes, pos: nat) { pos < |json| ==> !NumByte(json[pos]) }

  lemma {:induction false} SkipPrefix(json: bytes, pos: nat, ws: bytes)
    requires Blank(ws) && At(json, pos, ws)
    ensures SkipSpace(json, pos) == SkipSpace(json, pos + |ws|)
    decreases |ws|
  {
    if ws != [] {
      AtByte(json, pos, ws, 0);
      assert ws == [ws[0]] + ws[1..];
      AtConcat(json, pos, [ws[0]], ws[1..]);
      SkipPrefix(json, pos + 1, ws[1..]);
    }
  }

  lemma {:induction false} NumberScanned(json: bytes, pos: nat, s: bytes)
    requires At(json, pos, s) && (forall i :: 0 <= i < |s| ==> NumByte(s[i])) && NumberEnds(json, pos + |s|)
    ensures NumberEndAt(json, pos) == pos + |s|
    decreases |s|
  {
    if s != [] {
      AtByte(json, pos, s, 0);
      assert s == [s[0]] + s[1..];
      AtConcat(json, pos, [s[0]], s[1..]);
      NumberScanned(json, pos + 1, s[1..]);
    }
  }

  /** Where the value of a slot starts and ends, and what is around it. */
  lemma SlotReads(json: bytes, start: nat, s: Slot) returns (at: nat, end: nat)
    requires SlotOk(s) && At(json, start, SlotText(s))
    requires NumberEnds(json, start + |SlotText(s)|) && Delimited(json, start + |SlotText(s)|)
    ensures SkipSpace(json, start) == at && At(json, at, JsonSyntax.Text(s.value)) && at < |json|
    ensures !ClosesAt(json, at, RBRACKET) && !ClosesAt(json, at, RBRACE)
    ensures end == at + |JsonSyntax.Text(s.value)| && NumberEnds(json, end) && Delimited(json, end)
    ensures SkipSpace(json, end) == SkipSpace(json, start + |SlotText(s)|)
  {
    SlotParts(json, start, s);
    at := start + |s.before|;
    end := at + |JsonSyntax.Text(s.value)|;
    FirstByte(s.value);
    AtByte(json, at, JsonSyntax.Text(s.value), 0);
    SkipBlank(json, start, s.before);
    if s.after != [] { AtByte(json, end, s.after, 0); }
    SkipPrefix(json, end, s.after);
  }

  // ---- the decoder computes the meaning ----

  lemma {:induction false} DecodeAgrees(json: bytes, p: nat, j: Json, t: LogicalType, db: Database)
    requires WellFormedJson(j) && At(json, p, JsonSyntax.Text(j))
    requires j.Num? ==> NumberEnds(json, p + |JsonSyntax.Text(j)|)
    ensures DecodeOneAt(json, p, t, db) == DecodeHere(json, p, t, db)
    ensures DecodeHere(json, p, t, db) == Lift(Meaning(j, t, db), p + |JsonSyntax.Text(j)|)
    decreases j, 4
  {
    DecodesHere(json, p, j, t, db);
    HereAgrees(json, p, j, t, db);
  }

  lemma {:induction false} HereAgrees(json: bytes, p: nat, j: Json, t: LogicalType, db: Database)
    requires WellFormedJson(j) && At(json, p, JsonSyntax.Text(j))
    requires j.Num? ==> NumberEnds(json, p + |JsonSyntax.Text(j)|)
    ensures DecodeHere(json, p, t, db) == Lift(Meaning(j, t, db), p + |JsonSyntax.Text(j)|)
    decreases j, 3
  {
    if j.Arr? {
      ArrayAgrees(json, p, j.items, j.pad, t, db);
      ContainerHere(json, p, j, t, db);
    } else if j.Obj? {
      ObjectAgrees(json, p, j.members, j.pad, t, db);
      ContainerHere(json, p, j, t, db);
    } else {
      AtomAgrees(json, p, j, t, db);
    }
  }

  lemma ContainerHere(json: bytes, p: nat, j: Json, t: LogicalType, db: Database)
    requires WellFormedJson(j) && (j.Arr? || j.Obj?)
    requires p < |json| && json[p] == if j.Arr? then LBRACKET else LBRACE
    ensures DecodeHere(json, p, t, db) == if j.Arr? then ArrayAt(json, p, t, db) else ObjectAt(json, p, t, db)
    ensures Meaning(j, t, db) == if j.Arr? then ArrayMeans(j.items, t, db) else ObjectMeans(j.members, j.pad, t, db)
  {
  }

  lemma AtomAgrees(json: bytes, p: nat, j: Json, t: LogicalType, db: Database)
    requires !j.Arr? && !j.Obj? && WellFormedJson(j) && At(json, p, JsonSyntax.Text(j))
    requires j.Num? ==> NumberEnds(json, p + |JsonSyntax.Text(j)|)
    ensures DecodeHere(json, p, t, db) == Lift(Meaning(j, t, db), p + |JsonSyntax.Text(j)|)
  {
    match j
    case Num(text) => NumberAgrees(json, p, text, t, db);
    case Str(units) => LiteralAgrees(json, p, units, t, db);
    case _ => WordAgrees(json, p, j, t, db);
  }

  lemma DecodesHere(json: bytes, p: nat, j: Json, t: LogicalType, db: Database)
    requires WellFormedJson(j) && At(json, p, JsonSyntax.Text(j))
    ensures DecodeOneAt(json, p, t, db) == DecodeHere(json, p, t, db)
  {
    FirstByte(j);
    AtByte(json, p, JsonSyntax.Text(j), 0);
    assert SkipSpace(json, p) == p;
  }

  lemma WordAgrees(json: bytes, p: nat, j: Json, t: LogicalType, db: Database)
    requires (j.Null? || j.True? || j.False?) && At(json, p, JsonSyntax.Text(j))
    ensures DecodeHere(json, p, t, db) == Lift(Meaning(j, t, db), p + |JsonSyntax.Text(j)|)
  {
    AtByte(json, p, JsonSyntax.Text(j), 0);
  }

  lemma LiteralAgrees(json: bytes, p: nat, units: seq<StrUnit>, t: LogicalType, db: Database)
    requires UnitsOk(units) && At(json, p, StrText(units))
    ensures DecodeHere(json, p, t, db) == Lift(CoerceString(UnitsValue(units), t, db), p + |StrText(units)|)
  {
    StringAgrees(json, p, units);
  }

  lemma NumberAgrees(json: bytes, p: nat, text: bytes, t: LogicalType, db: Database)
    requires NumText(text) && At(json, p, text) && NumberEnds(json, p + |text|)
    ensures DecodeHere(json, p, t, db) == Lift(CoerceNumber(text, t, db), p + |text|)
  {
    AtByte(json, p, text, 0);
    NumberScanned(json, p, text);
    AtSlice(json, p, text);
    assert NumberEndAt(json, p) == NumberEndAt(json, p + 1);
  }

  lemma {:induction false} ArrayAgrees(json: bytes, p: nat, items: seq<Slot>, pad: bytes, t: LogicalType, db: Database)
    requires WellFormedJson(Arr(items, pad)) && At(json, p, JsonSyntax.Text(Arr(items, pad)))
    ensures p < |json| && json[p] == LBRACKET
    ensures ArrayAt(json, p, t, db) == Lift(ArrayMeans(items, t, db), p + |JsonSyntax.Text(Arr(items, pad))|)
    decreases items, 8
  {
    ArrayTail(json, p, items, pad);
    match t
    case List(child) => ElementsAgree(json, p + 1, p + 1, items, pad, true, child, db);
    case Array(child, _) => ElementsAgree(json, p + 1, p + 1, items, pad, true, child, db);
    case Map(key, value) => PairsAgree(json, p + 1, p + 1, items, pad, true, key, value, db);
    case _ =>
  }

  lemma ArrayTail(json: bytes, p: nat, items: seq<Slot>, pad: bytes)
    requires WellFormedJson(Arr(items, pad)) && At(json, p, JsonSyntax.Text(Arr(items, pad)))
    ensures p < |json| && json[p] == LBRACKET && TailAt(json, p + 1, items, pad, true)
    ensures TailEnd(p + 1, items, pad, true) == p + |JsonSyntax.Text(Arr(items, pad))|
  {
    ArrParts(json, p, items, pad);
    AtOne(json, p + |JsonSyntax.Text(Arr(items, pad))| - 1, RBRACKET);
  }

  /** The tail of an array: items, padding, bracket. */
  predicate TailAt(json: bytes, pos: nat, items: seq<Slot>, pad: bytes, first: bool) {
    ItemsOk(items) && Blank(pad) && At(json, pos, ItemsText(items, first))
    && At(json, pos + |ItemsText(items, first)|, pad)
    && ClosesAt(json, pos + |ItemsText(items, first)| + |pad|, RBRACKET)
  }

  function TailEnd(pos: nat, items: seq<Slot>, pad: bytes, first: bool): nat {
    pos + |ItemsText(items, first)| + |pad| + 1
  }

  lemma TailEmpty(json: bytes, cur: nat, pos: nat, pad: bytes, first: bool)
    requires TailAt(json, pos, [], pad, first) && SkipSpace(json, cur) == SkipSpace(json, pos)
    ensures SkipSpace(json, cur) + 1 == TailEnd(pos, [], pad, first) && ClosesAt(json, SkipSpace(json, cur), RBRACKET)
  {
    SkipBlank(json, pos, pad);
  }

  /** The first item of a tail: where it is read from, and the tail behind it. */
  lemma TailStep(json: bytes, cur: nat, pos: nat, items: seq<Slot>, pad: bytes, first: bool)
    returns (start: nat, at: nat, end: nat, rest: nat)
    requires items != [] && TailAt(json, pos, items, pad, first) && SkipSpace(json, cur) == SkipSpace(json, pos)
    ensures WellFormedJson(items[0].value) && !ClosesAt(json, SkipSpace(json, cur), RBRACKET)
    ensures NextAt(json, SkipSpace(json, cur), first) == Ok((), start) && SkipSpace(json, start) == at
    ensures At(json, at, JsonSyntax.Text(items[0].value)) && end == at + |JsonSyntax.Text(items[0].value)|
    ensures NumberEnds(json, end) && SkipSpace(json, end) == SkipSpace(json, rest)
    ensures TailAt(json, rest, items[1..], pad, false)
    ensures TailEnd(rest, items[1..], pad, false) == TailEnd(pos, items, pad, first)
    ensures !first ==> pos < |json| && json[pos] == COMMA
  {
    var slotStart;
    slotStart, rest := TailSplit(json, pos, items, pad, first);
    at, end := SlotReads(json, slotStart, items[0]);
    if first {
      start := SkipSpace(json, cur);
      SkipTwice(json, cur);
    } else {
      start := pos + 1;
      CommaReads(json, cur, pos);
    }
  }

  lemma CommaReads(json: bytes, cur: nat, pos: nat)
    requires pos < |json| && json[pos] == COMMA && SkipSpace(json, cur) == SkipSpace(json, pos)
    ensures SkipSpace(json, cur) == pos && NextAt(json, pos, false) == Ok((), pos + 1)
  {
  }

  lemma TailSplit(json: bytes, pos: nat, items: seq<Slot>, pad: bytes, first: bool) returns (slotStart: nat, rest: nat)
    requires items != [] && TailAt(json, pos, items, pad, first)
    ensures SlotOk(items[0]) && At(json, slotStart, SlotText(items[0])) && rest == slotStart + |SlotText(items[0])|
    ensures if first then slotStart == pos else slotStart == pos + 1 <= |json| && json[pos] == COMMA
    ensures NumberEnds(json, rest) && Delimited(json, rest) && TailAt(json, rest, items[1..], pad, false)
    ensures TailEnd(rest, items[1..], pad, false) == TailEnd(pos, items, pad, first)
  {
    ItemsParts(json, pos, items, first);
    slotStart := pos + |Separator(first)|;
    rest := slotStart + |SlotText(items[0])|;
    TailPunctuation(json, rest, items[1..], pad);
    if !first { AtOne(json, pos, COMMA); }
  }

  /** Something that is no number byte follows every item. */
  lemma TailPunctuation(json: bytes, pos: nat, items: seq<Slot>, pad: bytes)
    requires TailAt(json, pos, items, pad, false)
    ensures NumberEnds(json, pos) && Delimited(json, pos)
  {
    if items != [] {
      ItemsParts(json, pos, items, false);
      AtOne(json, pos, COMMA);
    } else if pad != [] {
      AtByte(json, pos, pad, 0);
    }
  }

  function Cons<T>(v: Option<T>, vs: Option<seq<T>>): Option<seq<T>> {
    if v.None? || vs.None? then None else Some([v.value] + vs.value)
  }

  lemma ElementsCons(json: bytes, cur: nat, start: nat, end: nat, last: nat, first: bool, child: LogicalType, db: Database,
                     v: Option<Value>, vs: Option<seq<Value>>)
    requires !ClosesAt(json, SkipSpace(json, cur), RBRACKET) && NextAt(json, SkipSpace(json, cur), first) == Ok((), start)
    requires DecodeOneAt(json, start, child, db) == Lift(v, end)
    requires ElementsAt(json, end, false, child, db) == Lift(vs, last)
    ensures ElementsAt(json, cur, first, child, db) == Lift(Cons(v, vs), last)
  {
  }

  lemma {:induction false} ElementsAgree(json: bytes, cur: nat, pos: nat, items: seq<Slot>, pad: bytes, first: bool,
                                         child: LogicalType, db: Database)
    requires TailAt(json, pos, items, pad, first) && SkipSpace(json, cur) == SkipSpace(json, pos)
    ensures ElementsAt(json, cur, first, child, db) == Lift(ItemsMeaning(items, child, db), TailEnd(pos, items, pad, first))
    decreases items, 7
  {
    if items == [] {
      TailEmpty(json, cur, pos, pad, first);
    } else {
      var start, at, end, rest := TailStep(json, cur, pos, items, pad, first);
      DecodeFrom(json, start, at, items[0].value, child, db);
      ElementsAgree(json, end, rest, items[1..], pad, false, child, db);
      ElementsCons(json, cur, start, end, TailEnd(pos, items, pad, first), first, child, db,
                   Meaning(items[0].value, child, db), ItemsMeaning(items[1..], child, db));
    }
  }

  /** DecodeAgrees, read from before the whitespace in front of the value. */
  lemma {:induction false} DecodeFrom(json: bytes, start: nat, at: nat, j: Json, t: LogicalType, db: Database)
    requires WellFormedJson(j) && At(json, at, JsonSyntax.Text(j)) && SkipSpace(json, start) == at
    requires NumberEnds(json, at + |JsonSyntax.Text(j)|)
    ensures DecodeOneAt(json, start, t, db) == Lift(Meaning(j, t, db), at + |JsonSyntax.Text(j)|)
    decreases j, 5
  {
    DecodeAgrees(json, at, j, t, db);
  }

  lemma PairsCons(json: bytes, cur: nat, start: nat, end: nat, last: nat, first: bool, key: LogicalType, value: LogicalType,
                  db: Database, e: Option<Entry>, es: Option<seq<Entry>>)
    requires !ClosesAt(json, SkipSpace(json, cur), RBRACKET) && NextAt(json, SkipSpace(json, cur), first) == Ok((), start)
    requires PairAt(json, start, key, value, db) == Lift(e, end)
    requires PairsAt(json, end, false, key, value, db) == Lift(es, last)
    ensures PairsAt(json, cur, first, key, value, db) == Lift(Cons(e, es), last)
  {
  }

  /** The first pair of a MAP text, on both sides, and where the rest starts. */
  lemma {:induction false} PairsFirst(json: bytes, cur: nat, pos: nat, items: seq<Slot>, pad: bytes, first: bool,
                                      key: LogicalType, value: LogicalType, db: Database)
    returns (start: nat, e: Option<Entry>, end: nat, rest: nat)
    requires items != [] && TailAt(json, pos, items, pad, first) && SkipSpace(json, cur) == SkipSpace(json, pos)
    ensures !ClosesAt(json, SkipSpace(json, cur), RBRACKET) && NextAt(json, SkipSpace(json, cur), first) == Ok((), start)
    ensures WellFormedJson(items[0].value) && e == EntryMeaning(items[0].value, key, value, db)
    ensures PairAt(json, start, key, value, db) == Lift(e, end)
    ensures TailAt(json, rest, items[1..], pad, false) && SkipSpace(json, end) == SkipSpace(json, rest)
    ensures TailEnd(rest, items[1..], pad, false) == TailEnd(pos, items, pad, first)
    decreases items, 6
  {
    var at;
    start, at, end, rest := TailStep(json, cur, pos, items, pad, first);
    PairAgrees(json, start, at, items[0].value, key, value, db);
    e := EntryMeaning(items[0].value, key, value, db);
  }

  lemma {:induction false} PairsAgree(json: bytes, cur: nat, pos: nat, items: seq<Slot>, pad: bytes, first: bool,
                                      key: LogicalType, value: LogicalType, db: Database)
    requires TailAt(json, pos, items, pad, first) && SkipSpace(json, cur) == SkipSpace(json, pos)
    ensures PairsAt(json, cur, first, key, value, db)
         == Lift(EntriesMeaning(items, key, value, db), TailEnd(pos, items, pad, first))
    decreases items, 7
  {
    if items == [] {
      TailEmpty(json, cur, pos, pad, first);
    } else {
      var start, e, end, rest := PairsFirst(json, cur, pos, items, pad, first, key, value, db);
      var more := items[1..];
      PairsAgree(json, end, rest, more, pad, false, key, value, db);
      PairsCons(json, cur, start, end, TailEnd(pos, items, pad, first), first, key, value, db,
                e, EntriesMeaning(more, key, value, db));
    }
  }

  lemma SkipTwice(json: bytes, pos: nat)
    ensures SkipSpace(json, SkipSpace(json, pos)) == SkipSpace(json, pos)
  {
  }

  lemma ConsumeSkips(json: bytes, pos: nat, c: byte)
    ensures ConsumeAt(json, SkipSpace(json, pos), c) == ConsumeAt(json, pos, c)
  {
    SkipTwice(json, pos);
  }

  /** A pair is read off any JSON value, and refused unless that is an array of two. */
  lemma {:induction false} PairAgrees(json: bytes, cur: nat, at: nat, j: Json, key: LogicalType, value: LogicalType, db: Database)
    requires WellFormedJson(j) && At(json, at, JsonSyntax.Text(j)) && SkipSpace(json, cur) == at
    ensures PairAt(json, cur, key, value, db) == Lift(EntryMeaning(j, key, value, db), at + |JsonSyntax.Text(j)|)
    decreases j, 5
  {
    FirstByte(j);
    AtByte(json, at, JsonSyntax.Text(j), 0);
    if j.Arr? {
      ArrParts(json, at, j.items, j.pad);
      AtOne(json, at + |JsonSyntax.Text(j)| - 1, RBRACKET);
      PairItemsAgree(json, cur, at, j.items, j.pad, key, value, db);
    }
  }

  /** PairAt in terms of what its five steps return. */
  lemma PairUnfold(json: bytes, cur: nat, key: LogicalType, value: LogicalType, db: Database,
                   p0: nat, k: Parsed<Value>, comma: Parsed<()>, v: Parsed<Value>, close: Parsed<()>)
    requires ConsumeAt(json, cur, LBRACKET) == Ok((), p0) && k == DecodeOneAt(json, p0, key, db)
    requires k.Ok? ==> comma == ConsumeAt(json, k.next, COMMA)
    requires k.Ok? && comma.Ok? ==> v == DecodeOneAt(json, comma.next, value, db)
    requires k.Ok? && comma.Ok? && v.Ok? ==> close == ConsumeAt(json, v.next, RBRACKET)
    ensures PairAt(json, cur, key, value, db)
         == if k.Ok? && comma.Ok? && v.Ok? && close.Ok? then Ok(Entry(k.value, v.value), close.next) else Err
  {
  }

  lemma {:induction false} PairItemsAgree(json: bytes, cur: nat, at: nat, items: seq<Slot>, pad: bytes,
                                          key: LogicalType, value: LogicalType, db: Database)
    requires TailAt(json, at + 1, items, pad, true) && at < |json| && json[at] == LBRACKET && SkipSpace(json, cur) == at
    ensures PairAt(json, cur, key, value, db)
         == Lift(EntryMeaning(Arr(items, pad), key, value, db), TailEnd(at + 1, items, pad, true))
    decreases items, 7
  {
    if items == [] {
      TailEmpty(json, at + 1, at + 1, pad, true);
      NothingToDecode(json, at + 1, key, db);
      PairUnfold(json, cur, key, value, db, at + 1, Err, Err, Err, Err);
    } else {
      var start, at1, end1, rest1 := TailStep(json, at + 1, at + 1, items, pad, true);
      DecodeFrom(json, at + 1, at1, items[0].value, key, db);
      var k := Meaning(items[0].value, key, db);
      if |items| == 1 {
        PairAlone(json, cur, at, end1, rest1, pad, k, key, value, db);
      } else {
        PairSecondAgrees(json, cur, at, end1, rest1, items, pad, k, key, value, db);
      }
    }
  }

  lemma PairAlone(json: bytes, cur: nat, at: nat, end1: nat, rest1: nat, pad: bytes, k: Option<Value>,
                  key: LogicalType, value: LogicalType, db: Database)
    requires ConsumeAt(json, cur, LBRACKET) == Ok((), at + 1) && DecodeOneAt(json, at + 1, key, db) == Lift(k, end1)
    requires TailAt(json, rest1, [], pad, false) && SkipSpace(json, end1) == SkipSpace(json, rest1)
    ensures PairAt(json, cur, key, value, db) == Err
  {
    TailEmpty(json, end1, rest1, pad, false);
    PairUnfold(json, cur, key, value, db, at + 1, Lift(k, end1), Err, Err, Err);
  }

  lemma NothingToDecode(json: bytes, pos: nat, t: LogicalType, db: Database)
    requires ClosesAt(json, SkipSpace(json, pos), RBRACKET)
    ensures DecodeOneAt(json, pos, t, db) == Err
  {
  }

  lemma PairCloses(json: bytes, cur: nat, pos: nat, items: seq<Slot>, pad: bytes)
    requires TailAt(json, pos, items, pad, false) && SkipSpace(json, cur) == SkipSpace(json, pos)
    ensures ConsumeAt(json, cur, RBRACKET) == if items == [] then Ok((), TailEnd(pos, items, pad, false)) else Err
  {
    if items == [] {
      TailEmpty(json, cur, pos, pad, false);
    } else {
      ItemsParts(json, pos, items, false);
      AtOne(json, pos, COMMA);
    }
  }

  /** What follows the first item of a pair: a comma, a second value, and a bracket if that was all. */
  lemma {:induction false} PairSecondReads(json: bytes, cur: nat, pos: nat, more: seq<Slot>, pad: bytes, value: LogicalType,
                                           db: Database)
    returns (start: nat, v: Option<Value>, end: nat)
    requires more != [] && TailAt(json, pos, more, pad, false) && SkipSpace(json, cur) == SkipSpace(json, pos)
    ensures ConsumeAt(json, cur, COMMA) == Ok((), start)
    ensures WellFormedJson(more[0].value) && v == Meaning(more[0].value, value, db)
    ensures DecodeOneAt(json, start, value, db) == Lift(v, end)
    ensures ConsumeAt(json, end, RBRACKET) == if |more| == 1 then Ok((), TailEnd(pos, more, pad, false)) else Err
    decreases more, 6
  {
    var at, rest;
    start, at, end, rest := TailStep(json, cur, pos, more, pad, false);
    ConsumeSkips(json, cur, COMMA);
    DecodeFrom(json, start, at, more[0].value, value, db);
    v := Meaning(more[0].value, value, db);
    PairCloses(json, end, rest, more[1..], pad);
  }

  lemma PairOfTwo(json: bytes, cur: nat, p0: nat, key: LogicalType, value: LogicalType, db: Database,
                  k: Option<Value>, end1: nat, start2: nat, v: Option<Value>, end2: nat, two: bool, last: nat)
    requires ConsumeAt(json, cur, LBRACKET) == Ok((), p0) && DecodeOneAt(json, p0, key, db) == Lift(k, end1)
    requires ConsumeAt(json, end1, COMMA) == Ok((), start2) && DecodeOneAt(json, start2, value, db) == Lift(v, end2)
    requires ConsumeAt(json, end2, RBRACKET) == if two then Ok((), last) else Err
    ensures PairAt(json, cur, key, value, db)
         == if two && k.Some? && v.Some? then Ok(Entry(k.value, v.value), last) else Err
  {
    PairUnfold(json, cur, key, value, db, p0, Lift(k, end1), Ok((), start2), Lift(v, end2), if two then Ok((), last) else Err);
  }

  lemma EntryOfTwo(items: seq<Slot>, pad: bytes, key: LogicalType, value: LogicalType, db: Database,
                   k: Option<Value>, v: Option<Value>)
    requires |items| >= 2 && ItemsOk(items) && Blank(pad) && WellFormedJson(items[1].value)
    requires k == Meaning(items[0].value, key, db) && v == Meaning(items[1].value, value, db)
    ensures EntryMeaning(Arr(items, pad), key, value, db)
         == if |items| == 2 && k.Some? && v.Some? then Some(Entry(k.value, v.value)) else None
  {
  }

  lemma {:induction false} PairSecondAgrees(json: bytes, cur: nat, at: nat, end1: nat, rest1: nat, items: seq<Slot>, pad: bytes,
                                            k: Option<Value>, key: LogicalType, value: LogicalType, db: Database)
    requires |items| >= 2 && ItemsOk(items) && k == Meaning(items[0].value, key, db)
    requires ConsumeAt(json, cur, LBRACKET) == Ok((), at + 1) && DecodeOneAt(json, at + 1, key, db) == Lift(k, end1)
    requires TailAt(json, rest1, items[1..], pad, false) && SkipSpace(json, end1) == SkipSpace(json, rest1)
    ensures PairAt(json, cur, key, value, db)
         == Lift(EntryMeaning(Arr(items, pad), key, value, db), TailEnd(rest1, items[1..], pad, false))
    decreases items, 6
  {
    var more := items[1..];
    var start2, v, end2 := PairSecondReads(json, end1, rest1, more, pad, value, db);
    PairOfTwo(json, cur, at + 1, key, value, db, k, end1, start2, v, end2, |more| == 1, TailEnd(rest1, more, pad, false));
    EntryOfTwo(items, pad, key, value, db, k, v);
  }

  // ---- objects ----

  predicate MembersTailAt(json: bytes, pos: nat, ms: seq<Member>, pad: bytes, first: bool) {
    MembersOk(ms) && Blank(pad) && At(json, pos, MembersText(ms, first))
    && At(json, pos + |MembersText(ms, first)|, pad)
    && ClosesAt(json, pos + |MembersText(ms, first)| + |pad|, RBRACE)
  }

  function MembersEnd(pos: nat, ms: seq<Member>, pad: bytes, first: bool): nat {
    pos + |MembersText(ms, first)| + |pad| + 1
  }

  lemma MembersEmpty(json: bytes, cur: nat, pos: nat, pad: bytes, first: bool)
    requires MembersTailAt(json, pos, [], pad, first) && SkipSpace(json, cur) == SkipSpace(json, pos)
    ensures SkipSpace(json, cur) + 1 == MembersEnd(pos, [], pad, first) && ClosesAt(json, SkipSpace(json, cur), RBRACE)
  {
    SkipBlank(json, pos, pad);
  }

  lemma MembersPunctuation(json: bytes, pos: nat, ms: seq<Member>, pad: bytes)
    requires MembersTailAt(json, pos, ms, pad, false)
    ensures NumberEnds(json, pos) && Delimited(json, pos)
  {
    if ms != [] {
      MembersParts(json, pos, ms, false);
      AtOne(json, pos, COMMA);
    } else if pad != [] {
      AtByte(json, pos, pad, 0);
    }
  }

  /** Where the key of a member, its colon and its value stand. */
  lemma KeyPlaces(json: bytes, start: nat, m: Member) returns (q: nat, r: nat, after: nat)
    requires MemberOk(m) && At(json, start, MemberText(m))
    ensures At(json, q, StrText(m.key)) && r == q + |StrText(m.key)|
    ensures 0 < after <= |json| && json[after - 1] == COLON
    ensures SkipSpace(json, start) == SkipSpace(json, q) && SkipSpace(json, r) == SkipSpace(json, after - 1)
    ensures At(json, after, SlotText(m.slot)) && start + |MemberText(m)| == after + |SlotText(m.slot)|
  {
    var colon;
    q, r, colon := MemberSpots(json, start, m);
    after := colon + 1;
    SkipPrefix(json, start, m.before);
    SkipPrefix(json, r, m.afterKey);
  }

  lemma MemberSpots(json: bytes, start: nat, m: Member) returns (q: nat, r: nat, colon: nat)
    requires MemberOk(m) && At(json, start, MemberText(m))
    ensures At(json, start, m.before) && q == start + |m.before| && At(json, q, StrText(m.key))
    ensures r == q + |StrText(m.key)| && At(json, r, m.afterKey) && colon == r + |m.afterKey|
    ensures colon < |json| && json[colon] == COLON && At(json, colon + 1, SlotText(m.slot))
    ensures start + |MemberText(m)| == colon + 1 + |SlotText(m.slot)|
  {
    MemberParts(json, start, m);
    q := start + |m.before|;
    r := q + |StrText(m.key)|;
    colon := r + |m.afterKey|;
    AtOne(json, colon, COLON);
  }

  lemma ColonReads(json: bytes, r: nat, after: nat)
    requires 0 < after <= |json| && json[after - 1] == COLON && SkipSpace(json, r) == SkipSpace(json, after - 1)
    ensures ConsumeAt(json, r, COLON) == Ok((), after)
  {
  }

  /** The key of a member, read from before the whitespace in front of it. */
  lemma KeyReads(json: bytes, p: nat, start: nat, m: Member) returns (after: nat)
    requires MemberOk(m) && At(json, start, MemberText(m)) && SkipSpace(json, p) == SkipSpace(json, start)
    ensures SkipSpace(json, start) < |json| && json[SkipSpace(json, start)] == QUOTE
    ensures KeyAt(json, p, true) == Ok(UnitsValue(m.key), after)
    ensures At(json, after, SlotText(m.slot)) && start + |MemberText(m)| == after + |SlotText(m.slot)|
  {
    var q, r;
    q, r, after := KeyPlaces(json, start, m);
    StringAgrees(json, q, m.key);
    ColonReads(json, r, after);
    KeyUnfold(json, p, q, UnitsValue(m.key), r, after);
  }

  lemma KeyUnfold(json: bytes, p: nat, q: nat, key: bytes, r: nat, after: nat)
    requires SkipSpace(json, p) == q && q < |json| && !IsSpace(json[q]) && StringAt(json, q) == Ok(key, r)
    requires ConsumeAt(json, r, COLON) == Ok((), after)
    ensures KeyAt(json, p, true) == Ok(key, after)
  {
    assert SkipSpace(json, q) == q;
  }

  /** The first member of a tail: its key, where its value is read from, and the tail behind it. */
  lemma MembersStep(json: bytes, cur: nat, pos: nat, ms: seq<Member>, pad: bytes, first: bool)
    returns (after: nat, at: nat, end: nat, rest: nat)
    requires ms != [] && MembersTailAt(json, pos, ms, pad, first) && SkipSpace(json, cur) == SkipSpace(json, pos)
    ensures MemberOk(ms[0]) && !ClosesAt(json, SkipSpace(json, cur), RBRACE)
    ensures KeyAt(json, SkipSpace(json, cur), first) == Ok(UnitsValue(ms[0].key), after) && SkipSpace(json, after) == at
    ensures At(json, at, JsonSyntax.Text(ms[0].slot.value)) && end == at + |JsonSyntax.Text(ms[0].slot.value)|
    ensures NumberEnds(json, end) && Delimited(json, end) && SkipSpace(json, end) == SkipSpace(json, rest)
    ensures MembersTailAt(json, rest, ms[1..], pad, false)
    ensures MembersEnd(rest, ms[1..], pad, false) == MembersEnd(pos, ms, pad, first)
  {
    var start;
    start, rest := MembersSplit(json, pos, ms, pad, first);
    after, at, end := MemberReads(json, cur, pos, start, ms[0], first);
  }

  lemma MembersSplit(json: bytes, pos: nat, ms: seq<Member>, pad: bytes, first: bool) returns (start: nat, rest: nat)
    requires ms != [] && MembersTailAt(json, pos, ms, pad, first)
    ensures MemberOk(ms[0]) && At(json, start, MemberText(ms[0])) && rest == start + |MemberText(ms[0])|
    ensures if first then start == pos else start == pos + 1 <= |json| && json[pos] == COMMA
    ensures NumberEnds(json, rest) && Delimited(json, rest) && MembersTailAt(json, rest, ms[1..], pad, false)
    ensures MembersEnd(rest, ms[1..], pad, false) == MembersEnd(pos, ms, pad, first)
  {
    start, rest := MembersPlaces(json, pos, ms, first);
    var more := ms[1..];
    assert MembersTailAt(json, rest, more, pad, false);
    MembersPunctuation(json, rest, more, pad);
  }

  lemma MembersPlaces(json: bytes, pos: nat, ms: seq<Member>, first: bool) returns (start: nat, rest: nat)
    requires ms != [] && MembersOk(ms) && At(json, pos, MembersText(ms, first))
    ensures MemberOk(ms[0]) && At(json, start, MemberText(ms[0])) && rest == start + |MemberText(ms[0])|
    ensures if first then start == pos else start == pos + 1 <= |json| && json[pos] == COMMA
    ensures MembersOk(ms[1..]) && At(json, rest, MembersText(ms[1..], false))
    ensures rest + |MembersText(ms[1..], false)| == pos + |MembersText(ms, first)|
  {
    MembersParts(json, pos, ms, first);
    start := pos + |Separator(first)|;
    rest := start + |MemberText(ms[0])|;
    if !first { AtOne(json, pos, COMMA); }
  }

  lemma MemberReads(json: bytes, cur: nat, pos: nat, start: nat, m: Member, first: bool) returns (after: nat, at: nat, end: nat)
    requires MemberOk(m) && At(json, start, MemberText(m)) && SkipSpace(json, cur) == SkipSpace(json, pos)
    requires if first then start == pos else start == pos + 1 <= |json| && json[pos] == COMMA
    requires NumberEnds(json, start + |MemberText(m)|) && Delimited(json, start + |MemberText(m)|)
    ensures !ClosesAt(json, SkipSpace(json, cur), RBRACE)
    ensures KeyAt(json, SkipSpace(json, cur), first) == Ok(UnitsValue(m.key), after) && SkipSpace(json, after) == at
    ensures At(json, at, JsonSyntax.Text(m.slot.value)) && end == at + |JsonSyntax.Text(m.slot.value)|
    ensures NumberEnds(json, end) && Delimited(json, end) && SkipSpace(json, end) == SkipSpace(json, start + |MemberText(m)|)
  {
    after := KeyOfMember(json, cur, pos, start, m, first);
    at, end := SlotReads(json, after, m.slot);
  }

  lemma KeyOfMember(json: bytes, cur: nat, pos: nat, start: nat, m: Member, first: bool) returns (after: nat)
    requires MemberOk(m) && At(json, start, MemberText(m)) && SkipSpace(json, cur) == SkipSpace(json, pos)
    requires if first then start == pos else start == pos + 1 <= |json| && json[pos] == COMMA
    ensures !ClosesAt(json, SkipSpace(json, cur), RBRACE)
    ensures KeyAt(json, SkipSpace(json, cur), first) == Ok(UnitsValue(m.key), after)
    ensures At(json, after, SlotText(m.slot)) && start + |MemberText(m)| == after + |SlotText(m.slot)|
  {
    if first {
      SkipTwice(json, cur);
      after := KeyReads(json, SkipSpace(json, cur), start, m);
    } else {
      after := KeyReads(json, start, start, m);
      KeyBehindComma(json, pos, UnitsValue(m.key), after);
    }
  }

  lemma KeyBehindComma(json: bytes, pos: nat, key: bytes, after: nat)
    requires pos < |json| && json[pos] == COMMA && KeyAt(json, pos + 1, true) == Ok(key, after)
    ensures SkipSpace(json, pos) == pos && KeyAt(json, pos, false) == Ok(key, after)
  {
    assert ConsumeAt(json, pos, COMMA) == Ok((), pos + 1);
  }

  /** A member that names no field, or one already filled, is refused. */
  lemma MembersRefuse(json: bytes, cur: nat, first: bool, key: bytes, after: nat, fields: seq<Field>,
                      filled: seq<Option<Value>>, db: Database, ms: seq<Member>)
    requires ms != [] && MembersOk(ms) && UnitsValue(ms[0].key) == key
    requires |filled| == |fields| && !ClosesAt(json, SkipSpace(json, cur), RBRACE)
    requires KeyAt(json, SkipSpace(json, cur), first) == Ok(key, after)
    requires FieldIndex(fields, key, 0).Some? ==> filled[FieldIndex(fields, key, 0).value].Some?
    ensures MembersAt(json, cur, first, fields, filled, db) == Err && MembersMeaning(ms, fields, filled, db) == None
  {
  }

  lemma MembersTake(json: bytes, cur: nat, first: bool, key: bytes, after: nat, fields: seq<Field>,
                    filled: seq<Option<Value>>, db: Database, i: nat, v: Option<Value>, end: nat)
    requires |filled| == |fields| && !ClosesAt(json, SkipSpace(json, cur), RBRACE)
    requires KeyAt(json, SkipSpace(json, cur), first) == Ok(key, after)
    requires FieldIndex(fields, key, 0) == Some(i) && filled[i].None?
    requires DecodeOneAt(json, after, fields[i].fieldType, db) == Lift(v, end)
    ensures MembersAt(json, cur, first, fields, filled, db)
         == if v.None? then Err else MembersAt(json, end, false, fields, filled[i := v], db)
  {
  }

  lemma MeaningTake(ms: seq<Member>, fields: seq<Field>, filled: seq<Option<Value>>, db: Database, i: nat, v: Option<Value>)
    requires ms != [] && MembersOk(ms) && |filled| == |fields|
    requires FieldIndex(fields, UnitsValue(ms[0].key), 0) == Some(i) && filled[i].None?
    requires Meaning(ms[0].slot.value, fields[i].fieldType, db) == v
    ensures MembersMeaning(ms, fields, filled, db)
         == if v.None? then None else MembersMeaning(ms[1..], fields, filled[i := v], db)
  {
  }

  /** A member that is taken, on both sides. */
  lemma MembersBoth(json: bytes, cur: nat, first: bool, key: bytes, after: nat, fields: seq<Field>,
                    filled: seq<Option<Value>>, db: Database, ms: seq<Member>, i: nat, v: Option<Value>, end: nat)
    returns (filled': Option<seq<Option<Value>>>)
    requires ms != [] && MembersOk(ms) && UnitsValue(ms[0].key) == key
    requires |filled| == |fields| && !ClosesAt(json, SkipSpace(json, cur), RBRACE)
    requires KeyAt(json, SkipSpace(json, cur), first) == Ok(key, after)
    requires FieldIndex(fields, key, 0) == Some(i) && filled[i].None?
    requires DecodeOneAt(json, after, fields[i].fieldType, db) == Lift(v, end)
    requires Meaning(ms[0].slot.value, fields[i].fieldType, db) == v
    ensures filled'.Some? ==> |filled'.value| == |fields|
    ensures MembersAt(json, cur, first, fields, filled, db)
         == if filled'.None? then Err else MembersAt(json, end, false, fields, filled'.value, db)
    ensures MembersMeaning(ms, fields, filled, db)
         == if filled'.None? then None else MembersMeaning(ms[1..], fields, filled'.value, db)
  {
    MembersTake(json, cur, first, key, after, fields, filled, db, i, v, end);
    MeaningTake(ms, fields, filled, db, i, v);
    filled' := if v.None? then None else Some(filled[i := v]);
  }

  /** What becomes of one member, on both sides; `filled'` is None when both refuse it. */
  lemma {:induction false} MemberTakes(json: bytes, cur: nat, first: bool, after: nat, at: nat, end: nat, ms: seq<Member>,
                                       fields: seq<Field>, filled: seq<Option<Value>>, db: Database)
    returns (filled': Option<seq<Option<Value>>>)
    requires ms != [] && MembersOk(ms) && MemberOk(ms[0]) && |filled| == |fields|
    requires !ClosesAt(json, SkipSpace(json, cur), RBRACE)
    requires KeyAt(json, SkipSpace(json, cur), first) == Ok(UnitsValue(ms[0].key), after) && SkipSpace(json, after) == at
    requires At(json, at, JsonSyntax.Text(ms[0].slot.value)) && end == at + |JsonSyntax.Text(ms[0].slot.value)|
    requires NumberEnds(json, end)
    ensures filled'.Some? ==> |filled'.value| == |fields|
    ensures MembersAt(json, cur, first, fields, filled, db)
         == if filled'.None? then Err else MembersAt(json, end, false, fields, filled'.value, db)
    ensures MembersMeaning(ms, fields, filled, db)
         == if filled'.None? then None else MembersMeaning(ms[1..], fields, filled'.value, db)
    decreases ms, 6
  {
    var key := UnitsValue(ms[0].key);
    var i := FieldIndex(fields, key, 0);
    if i.Some? && filled[i.value].None? {
      DecodeFrom(json, after, at, ms[0].slot.value, fields[i.value].fieldType, db);
      var v := Meaning(ms[0].slot.value, fields[i.value].fieldType, db);
      filled' := MembersBoth(json, cur, first, key, after, fields, filled, db, ms, i.value, v, end);
    } else {
      MembersRefuse(json, cur, first, key, after, fields, filled, db, ms);
      filled' := None;
    }
  }

  lemma {:induction false} MembersFirst(json: bytes, cur: nat, pos: nat, ms: seq<Member>, pad: bytes, first: bool,
                                        fields: seq<Field>, filled: seq<Option<Value>>, db: Database)
    returns (filled': Option<seq<Option<Value>>>, end: nat, rest: nat)
    requires ms != [] && MembersTailAt(json, pos, ms, pad, first) && SkipSpace(json, cur) == SkipSpace(json, pos)
    requires |filled| == |fields|
    ensures filled'.Some? ==> |filled'.value| == |fields|
    ensures MembersAt(json, cur, first, fields, filled, db)
         == if filled'.None? then Err else MembersAt(json, end, false, fields, filled'.value, db)
    ensures MembersMeaning(ms, fields, filled, db)
         == if filled'.None? then None else MembersMeaning(ms[1..], fields, filled'.value, db)
    ensures MembersTailAt(json, rest, ms[1..], pad, false) && SkipSpace(json, end) == SkipSpace(json, rest)
    ensures MembersEnd(rest, ms[1..], pad, false) == MembersEnd(pos, ms, pad, first)
    decreases ms, 7
  {
    var after, at;
    after, at, end, rest := MembersStep(json, cur, pos, ms, pad, first);
    filled' := MemberTakes(json, cur, first, after, at, end, ms, fields, filled, db);
  }

  lemma {:induction false} MembersAgree(json: bytes, cur: nat, pos: nat, ms: seq<Member>, pad: bytes, first: bool,
                                        fields: seq<Field>, filled: seq<Option<Value>>, db: Database)
    requires MembersTailAt(json, pos, ms, pad, first) && SkipSpace(json, cur) == SkipSpace(json, pos)
    requires |filled| == |fields|
    ensures MembersAt(json, cur, first, fields, filled, db)
         == Lift(MembersMeaning(ms, fields, filled, db), MembersEnd(pos, ms, pad, first))
    decreases ms, 8
  {
    if ms == [] {
      MembersEmpty(json, cur, pos, pad, first);
    } else {
      var filled', end, rest := MembersFirst(json, cur, pos, ms, pad, first, fields, filled, db);
      if filled'.Some? {
        MembersAgree(json, end, rest, ms[1..], pad, false, fields, filled'.value, db);
      }
    }
  }

  /** Both readings of an object, side by side. */
  lemma ObjectUnfold(json: bytes, p: nat, ms: seq<Member>, pad: bytes, t: LogicalType, db: Database, end: nat)
    returns (wrapped: bool)
    requires WellFormedJson(Obj(ms, pad)) && p < |json| && json[p] == LBRACE
    requires RawValueAt(json, p) == Ok(JsonSyntax.Text(Obj(ms, pad)), end)
    ensures wrapped == LooksWrapped(JsonSyntax.Text(Obj(ms, pad)))
    ensures ObjectAt(json, p, t, db)
         == if wrapped then WrapperAt(json, p, db)
            else if !t.Struct? then Err
            else
              match MembersAt(json, p + 1, true, t.fields, Unfilled(|t.fields|), db)
              case Err => Err
              case Ok(filled, next) => Lift(db.convert(Row(Backfill(filled)), t), next)
  {
    wrapped := LooksWrapped(JsonSyntax.Text(Obj(ms, pad)));
  }

  lemma ObjectMeaning(ms: seq<Member>, pad: bytes, t: LogicalType, db: Database, wrapped: bool)
    requires MembersOk(ms) && wrapped == LooksWrapped(JsonSyntax.Text(Obj(ms, pad)))
    ensures ObjectMeans(ms, pad, t, db)
         == if wrapped then WrapperMeaning(ms, db)
            else if !t.Struct? then None
            else
              match MembersMeaning(ms, t.fields, Unfilled(|t.fields|), db)
              case None => None
              case Some(filled) => db.convert(Row(Backfill(filled)), t)
  {
  }

  /** What a wrapper and its members come to is what the object comes to. */
  lemma WrappedCase(json: bytes, p: nat, ms: seq<Member>, pad: bytes, t: LogicalType, db: Database, end: nat)
    requires WellFormedJson(Obj(ms, pad)) && p < |json| && json[p] == LBRACE
    requires RawValueAt(json, p) == Ok(JsonSyntax.Text(Obj(ms, pad)), end) && LooksWrapped(JsonSyntax.Text(Obj(ms, pad)))
    requires WrapperAt(json, p, db) == Lift(WrapperMeaning(ms, db), end)
    ensures ObjectAt(json, p, t, db) == Lift(ObjectMeans(ms, pad, t, db), end)
  {
    var wrapped := ObjectUnfold(json, p, ms, pad, t, db, end);
    ObjectMeaning(ms, pad, t, db, true);
  }

  lemma PlainCase(json: bytes, p: nat, ms: seq<Member>, pad: bytes, t: LogicalType, db: Database, end: nat)
    requires WellFormedJson(Obj(ms, pad)) && p < |json| && json[p] == LBRACE
    requires RawValueAt(json, p) == Ok(JsonSyntax.Text(Obj(ms, pad)), end) && !LooksWrapped(JsonSyntax.Text(Obj(ms, pad)))
    requires t.Struct? ==> MembersAt(json, p + 1, true, t.fields, Unfilled(|t.fields|), db)
                           == Lift(MembersMeaning(ms, t.fields, Unfilled(|t.fields|), db), end)
    ensures ObjectAt(json, p, t, db) == Lift(ObjectMeans(ms, pad, t, db), end)
  {
    var wrapped := ObjectUnfold(json, p, ms, pad, t, db, end);
    ObjectMeaning(ms, pad, t, db, false);
  }

  lemma {:induction false} WrappedObjectAgrees(json: bytes, p: nat, ms: seq<Member>, pad: bytes, t: LogicalType, db: Database,
                                               end: nat)
    requires WellFormedJson(Obj(ms, pad)) && p < |json| && json[p] == LBRACE && MembersTailAt(json, p + 1, ms, pad, true)
    requires MembersEnd(p + 1, ms, pad, true) == end && RawValueAt(json, p) == Ok(JsonSyntax.Text(Obj(ms, pad)), end)
    requires LooksWrapped(JsonSyntax.Text(Obj(ms, pad)))
    ensures ObjectAt(json, p, t, db) == Lift(ObjectMeans(ms, pad, t, db), end)
    decreases ms, 9
  {
    WrapperAgrees(json, p, ms, pad, db);
    WrappedCase(json, p, ms, pad, t, db, end);
  }

  lemma {:induction false} PlainObjectAgrees(json: bytes, p: nat, ms: seq<Member>, pad: bytes, t: LogicalType, db: Database,
                                             end: nat)
    requires WellFormedJson(Obj(ms, pad)) && p < |json| && json[p] == LBRACE && MembersTailAt(json, p + 1, ms, pad, true)
    requires MembersEnd(p + 1, ms, pad, true) == end && RawValueAt(json, p) == Ok(JsonSyntax.Text(Obj(ms, pad)), end)
    requires !LooksWrapped(JsonSyntax.Text(Obj(ms, pad)))
    ensures ObjectAt(json, p, t, db) == Lift(ObjectMeans(ms, pad, t, db), end)
    decreases ms, 9
  {
    if t.Struct? {
      MembersAgree(json, p + 1, p + 1, ms, pad, true, t.fields, Unfilled(|t.fields|), db);
    }
    PlainCase(json, p, ms, pad, t, db, end);
  }

  lemma {:induction false} ObjectAgrees(json: bytes, p: nat, ms: seq<Member>, pad: bytes, t: LogicalType, db: Database)
    requires WellFormedJson(Obj(ms, pad)) && At(json, p, JsonSyntax.Text(Obj(ms, pad)))
    ensures p < |json| && json[p] == LBRACE
    ensures ObjectAt(json, p, t, db) == Lift(ObjectMeans(ms, pad, t, db), p + |JsonSyntax.Text(Obj(ms, pad))|)
    decreases ms, 11
  {
    var end := ObjectTail(json, p, ms, pad);
    ObjectBranches(json, p, ms, pad, t, db, end);
  }

  lemma {:induction false} ObjectBranches(json: bytes, p: nat, ms: seq<Member>, pad: bytes, t: LogicalType, db: Database,
                                          end: nat)
    requires WellFormedJson(Obj(ms, pad)) && p < |json| && json[p] == LBRACE && MembersTailAt(json, p + 1, ms, pad, true)
    requires MembersEnd(p + 1, ms, pad, true) == end && RawValueAt(json, p) == Ok(JsonSyntax.Text(Obj(ms, pad)), end)
    ensures ObjectAt(json, p, t, db) == Lift(ObjectMeans(ms, pad, t, db), end)
    decreases ms, 10
  {
    if LooksWrapped(JsonSyntax.Text(Obj(ms, pad))) {
      WrappedObjectAgrees(json, p, ms, pad, t, db, end);
    } else {
      PlainObjectAgrees(json, p, ms, pad, t, db, end);
    }
  }

  lemma ObjectTail(json: bytes, p: nat, ms: seq<Member>, pad: bytes) returns (end: nat)
    requires WellFormedJson(Obj(ms, pad)) && At(json, p, JsonSyntax.Text(Obj(ms, pad)))
    ensures p < |json| && json[p] == LBRACE && MembersTailAt(json, p + 1, ms, pad, true)
    ensures MembersEnd(p + 1, ms, pad, true) == end == p + |JsonSyntax.Text(Obj(ms, pad))|
    ensures RawValueAt(json, p) == Ok(JsonSyntax.Text(Obj(ms, pad)), end)
  {
    end := p + |JsonSyntax.Text(Obj(ms, pad))|;
    RawValueAgrees(json, p, Obj(ms, pad));
    ObjectParts(json, p, ms, pad);
  }

  lemma ObjectParts(json: bytes, p: nat, ms: seq<Member>, pad: bytes)
    requires WellFormedJson(Obj(ms, pad)) && At(json, p, JsonSyntax.Text(Obj(ms, pad)))
    ensures p < |json| && json[p] == LBRACE && MembersTailAt(json, p + 1, ms, pad, true)
    ensures MembersEnd(p + 1, ms, pad, true) == p + |JsonSyntax.Text(Obj(ms, pad))|
  {
    ObjParts(json, p, ms, pad);
    AtOne(json, p + |JsonSyntax.Text(Obj(ms, pad))| - 1, RBRACE);
  }

  // ---- wrappers ----

  /** The members of a wrapper, folded as the decoder reads them. */
  function WrapperRead(ms: seq<Member>, w: Wrapper): Option<Wrapper>
    requires MembersOk(ms)
  {
    if ms == [] then Some(w)
    else if UnitsValue(ms[0].key) == TYPE_KEY then
      assert WellFormedJson(ms[0].slot.value);
      if !ms[0].slot.value.Str? then None
      else WrapperRead(ms[1..], w.(typeText := Some(UnitsValue(ms[0].slot.value.units))))
    else
      WrapperRead(ms[1..],
                  if UnitsValue(ms[0].key) == VALUE_KEY then w.(valueText := Some(JsonSyntax.Text(ms[0].slot.value))) else w)
  }

  lemma WrapperTakesType(json: bytes, cur: nat, first: bool, after: nat, w: Wrapper, s: Parsed<bytes>)
    requires !ClosesAt(json, SkipSpace(json, cur), RBRACE) && KeyAt(json, SkipSpace(json, cur), first) == Ok(TYPE_KEY, after)
    requires StringAt(json, after) == s
    ensures WrapperMembersAt(json, cur, first, w)
         == if s.Err? then Err else WrapperMembersAt(json, s.next, false, w.(typeText := Some(s.value)))
  {
  }

  lemma WrapperTakesOther(json: bytes, cur: nat, first: bool, key: bytes, after: nat, w: Wrapper, raw: bytes, end: nat)
    requires !ClosesAt(json, SkipSpace(json, cur), RBRACE) && KeyAt(json, SkipSpace(json, cur), first) == Ok(key, after)
    requires key != TYPE_KEY && RawValueAt(json, after) == Ok(raw, end)
    ensures WrapperMembersAt(json, cur, first, w)
         == WrapperMembersAt(json, end, false, if key == VALUE_KEY then w.(valueText := Some(raw)) else w)
  {
  }

  lemma WrapperReadStep(ms: seq<Member>, w: Wrapper)
    requires ms != [] && MembersOk(ms) && WellFormedJson(ms[0].slot.value)
    ensures var key, j := UnitsValue(ms[0].key), ms[0].slot.value;
            WrapperRead(ms, w)
            == if key == TYPE_KEY then
                 if j.Str? then WrapperRead(ms[1..], w.(typeText := Some(UnitsValue(j.units)))) else None
               else WrapperRead(ms[1..], if key == VALUE_KEY then w.(valueText := Some(JsonSyntax.Text(j))) else w)
  {
  }

  /** A type member must be a string; the reading then goes on with that string as the type. */
  lemma WrapperType(json: bytes, cur: nat, first: bool, after: nat, at: nat, ms: seq<Member>, w: Wrapper, end: nat)
    returns (w': Option<Wrapper>)
    requires ms != [] && MembersOk(ms) && UnitsValue(ms[0].key) == TYPE_KEY && WellFormedJson(ms[0].slot.value)
    requires !ClosesAt(json, SkipSpace(json, cur), RBRACE) && KeyAt(json, SkipSpace(json, cur), first) == Ok(TYPE_KEY, after)
    requires At(json, at, JsonSyntax.Text(ms[0].slot.value)) && SkipSpace(json, after) == at
    requires end == at + |JsonSyntax.Text(ms[0].slot.value)|
    ensures WrapperMembersAt(json, cur, first, w) == if w'.None? then Err else WrapperMembersAt(json, end, false, w'.value)
    ensures WrapperRead(ms, w) == if w'.None? then None else WrapperRead(ms[1..], w'.value)
  {
    var j := ms[0].slot.value;
    WrapperReadStep(ms, w);
    TypeStringReads(json, after, at, j);
    WrapperTakesType(json, cur, first, after, w, if j.Str? then Ok(UnitsValue(j.units), end) else Err);
    w' := if j.Str? then Some(w.(typeText := Some(UnitsValue(j.units)))) else None;
  }

  /** Any other member is read raw, and kept when its key is the value key. */
  lemma WrapperOther(json: bytes, cur: nat, first: bool, after: nat, at: nat, ms: seq<Member>, w: Wrapper, end: nat)
    returns (w': Wrapper)
    requires ms != [] && MembersOk(ms) && UnitsValue(ms[0].key) != TYPE_KEY && WellFormedJson(ms[0].slot.value)
    requires !ClosesAt(json, SkipSpace(json, cur), RBRACE)
    requires KeyAt(json, SkipSpace(json, cur), first) == Ok(UnitsValue(ms[0].key), after)
    requires At(json, at, JsonSyntax.Text(ms[0].slot.value)) && SkipSpace(json, after) == at
    requires end == at + |JsonSyntax.Text(ms[0].slot.value)| && Delimited(json, end)
    ensures WrapperMembersAt(json, cur, first, w) == WrapperMembersAt(json, end, false, w')
    ensures WrapperRead(ms, w) == WrapperRead(ms[1..], w')
  {
    var key, j := UnitsValue(ms[0].key), ms[0].slot.value;
    WrapperReadStep(ms, w);
    RawValueReads(json, after, at, j);
    WrapperTakesOther(json, cur, first, key, after, w, JsonSyntax.Text(j), end);
    w' := if key == VALUE_KEY then w.(valueText := Some(JsonSyntax.Text(j))) else w;
  }

  /** One member of a wrapper, on both sides; `w'` is None when both refuse it. */
  lemma WrapperFirst(json: bytes, cur: nat, pos: nat, ms: seq<Member>, pad: bytes, first: bool, w: Wrapper)
    returns (w': Option<Wrapper>, end: nat, rest: nat)
    requires ms != [] && MembersTailAt(json, pos, ms, pad, first) && SkipSpace(json, cur) == SkipSpace(json, pos)
    ensures WrapperMembersAt(json, cur, first, w) == if w'.None? then Err else WrapperMembersAt(json, end, false, w'.value)
    ensures WrapperRead(ms, w) == if w'.None? then None else WrapperRead(ms[1..], w'.value)
    ensures MembersTailAt(json, rest, ms[1..], pad, false) && SkipSpace(json, end) == SkipSpace(json, rest)
    ensures MembersEnd(rest, ms[1..], pad, false) == MembersEnd(pos, ms, pad, first)
  {
    var after, at;
    after, at, end, rest := MembersStep(json, cur, pos, ms, pad, first);
    if UnitsValue(ms[0].key) == TYPE_KEY {
      w' := WrapperType(json, cur, first, after, at, ms, w, end);
    } else {
      var kept := WrapperOther(json, cur, first, after, at, ms, w, end);
      w' := Some(kept);
    }
  }

  lemma {:induction false} WrapperMembersAgree(json: bytes, cur: nat, pos: nat, ms: seq<Member>, pad: bytes, first: bool, w: Wrapper)
    requires MembersTailAt(json, pos, ms, pad, first) && SkipSpace(json, cur) == SkipSpace(json, pos)
    ensures WrapperMembersAt(json, cur, first, w) == Lift(WrapperRead(ms, w), MembersEnd(pos, ms, pad, first))
    decreases ms
  {
    if ms == [] {
      MembersEmpty(json, cur, pos, pad, first);
    } else {
      var w', end, rest := WrapperFirst(json, cur, pos, ms, pad, first, w);
      if w'.Some? {
        WrapperMembersAgree(json, end, rest, ms[1..], pad, false, w'.value);
      }
    }
  }

  lemma TypeStringReads(json: bytes, cur: nat, at: nat, j: Json)
    requires WellFormedJson(j) && At(json, at, JsonSyntax.Text(j)) && SkipSpace(json, cur) == at
    ensures StringAt(json, cur) == if j.Str? then Ok(UnitsValue(j.units), at + |JsonSyntax.Text(j)|) else Err
  {
    FirstByte(j);
    AtByte(json, at, JsonSyntax.Text(j), 0);
    if j.Str? {
      StringAgrees(json, at, j.units);
      assert SkipSpace(json, at) == at;
    }
  }

  lemma RawValueReads(json: bytes, cur: nat, at: nat, j: Json)
    requires WellFormedJson(j) && At(json, at, JsonSyntax.Text(j)) && SkipSpace(json, cur) == at
    requires Delimited(json, at + |JsonSyntax.Text(j)|)
    ensures RawValueAt(json, cur) == Ok(JsonSyntax.Text(j), at + |JsonSyntax.Text(j)|)
  {
    FirstByte(j);
    AtByte(json, at, JsonSyntax.Text(j), 0);
    RawValueAgrees(json, at, j);
    assert SkipSpace(json, at) == at;
  }

  lemma {:induction false} WrapperReadLast(ms: seq<Member>, w: Wrapper)
    requires MembersOk(ms)
    ensures WrapperRead(ms, w).Some? <==> TypesAreStrings(ms)
    ensures var ti := LastMember(ms, TYPE_KEY);
            var vi := LastMember(ms, VALUE_KEY);
            WrapperRead(ms, w).Some? ==>
              (ti.Some? ==> MemberOk(ms[ti.value]) && ms[ti.value].slot.value.Str?)
              && (vi.Some? ==> MemberOk(ms[vi.value]))
              && WrapperRead(ms, w).value
                 == Wrapper(if ti.None? then w.typeText else Some(UnitsValue(ms[ti.value].slot.value.units)),
                            if vi.None? then w.valueText else Some(JsonSyntax.Text(ms[vi.value].slot.value)))
  {
    if ms != [] {
      var w' := if UnitsValue(ms[0].key) == TYPE_KEY then
                  if ms[0].slot.value.Str? then w.(typeText := Some(UnitsValue(ms[0].slot.value.units))) else w
                else if UnitsValue(ms[0].key) == VALUE_KEY then w.(valueText := Some(JsonSyntax.Text(ms[0].slot.value)))
                else w;
      WrapperReadLast(ms[1..], w');
    }
  }

  lemma WrapperIncomplete(json: bytes, p: nat, db: Database, read: Option<Wrapper>, next: nat)
    requires p < |json| && json[p] == LBRACE
    requires WrapperMembersAt(json, p + 1, true, Wrapper(None, None)) == Lift(read, next)
    requires read.None? || read.value.typeText.None? || read.value.valueText.None?
    ensures WrapperAt(json, p, db) == Err
  {
    BraceOpens(json, p);
  }

  lemma WrapperComplete(json: bytes, p: nat, db: Database, typeText: bytes, valueText: bytes, next: nat,
                        t: Option<LogicalType>)
    requires p < |json| && json[p] == LBRACE
    requires WrapperMembersAt(json, p + 1, true, Wrapper(None, None)) == Ok(Wrapper(Some(typeText), Some(valueText)), next)
    requires ParseType(typeText, 0) == t
    ensures WrapperAt(json, p, db)
         == if t.None? then Err
            else match DecodeOneAt(valueText, 0, t.value, db)
                 case Err => Err
                 case Ok(v, _) => Ok(v, next)
  {
    BraceOpens(json, p);
  }

  lemma BraceOpens(json: bytes, p: nat)
    requires p < |json| && json[p] == LBRACE
    ensures ConsumeAt(json, p, LBRACE) == Ok((), p + 1)
  {
    assert SkipSpace(json, p) == p;
  }

  /** The type and value members of a wrapper, if it has both. */
  lemma WrapperParts(ms: seq<Member>, db: Database) returns (ti: Option<nat>, vi: nat)
    requires MembersOk(ms)
    ensures ti.None? ==> var read := WrapperRead(ms, Wrapper(None, None));
                         WrapperMeaning(ms, db) == None
                         && (read.None? || read.value.typeText.None? || read.value.valueText.None?)
    ensures ti.Some? ==> ti.value < |ms| && vi < |ms| && MemberOk(ms[ti.value]) && MemberOk(ms[vi])
                         && LastMember(ms, TYPE_KEY) == ti && LastMember(ms, VALUE_KEY) == Some(vi)
                         && TypesAreStrings(ms) && ms[ti.value].slot.value.Str?
                         && WrapperRead(ms, Wrapper(None, None))
                            == Some(Wrapper(Some(UnitsValue(ms[ti.value].slot.value.units)),
                                            Some(JsonSyntax.Text(ms[vi].slot.value))))
  {
    WrapperReadLast(ms, Wrapper(None, None));
    ti, vi := None, 0;
    if TypesAreStrings(ms) && LastMember(ms, TYPE_KEY).Some? && LastMember(ms, VALUE_KEY).Some? {
      ti, vi := LastMember(ms, TYPE_KEY), LastMember(ms, VALUE_KEY).value;
    }
  }

  lemma WrapperMeaningIs(ms: seq<Member>, ti: nat, vi: nat, t: Option<LogicalType>, db: Database)
    requires MembersOk(ms) && TypesAreStrings(ms) && LastMember(ms, TYPE_KEY) == Some(ti) && LastMember(ms, VALUE_KEY) == Some(vi)
    requires MemberOk(ms[ti]) && MemberOk(ms[vi]) && ms[ti].slot.value.Str?
    requires ParseType(UnitsValue(ms[ti].slot.value.units), 0) == t
    ensures WrapperMeaning(ms, db) == if t.None? then None else Meaning(ms[vi].slot.value, t.value, db)
  {
  }

  lemma {:induction false} WrapperAgrees(json: bytes, p: nat, ms: seq<Member>, pad: bytes, db: Database)
    requires p < |json| && json[p] == LBRACE && MembersTailAt(json, p + 1, ms, pad, true)
    ensures WrapperAt(json, p, db) == Lift(WrapperMeaning(ms, db), MembersEnd(p + 1, ms, pad, true))
    decreases ms, 8
  {
    var next := MembersEnd(p + 1, ms, pad, true);
    WrapperMembersAgree(json, p + 1, p + 1, ms, pad, true, Wrapper(None, None));
    var ti, vi := WrapperParts(ms, db);
    if ti.None? {
      WrapperIncomplete(json, p, db, WrapperRead(ms, Wrapper(None, None)), next);
    } else {
      var typeText := UnitsValue(ms[ti.value].slot.value.units);
      WrapperValue(json, p, ms, ti.value, vi, typeText, ms[vi].slot.value, next, db);
    }
  }

  lemma {:induction false} WrapperValue(json: bytes, p: nat, ms: seq<Member>, ti: nat, vi: nat, typeText: bytes, j: Json, next: nat, db: Database)
    requires p < |json| && json[p] == LBRACE && MembersOk(ms) && TypesAreStrings(ms)
    requires LastMember(ms, TYPE_KEY) == Some(ti) && LastMember(ms, VALUE_KEY) == Some(vi)
    requires MemberOk(ms[ti]) && ms[ti].slot.value.Str? && UnitsValue(ms[ti].slot.value.units) == typeText
    requires MemberOk(ms[vi]) && ms[vi].slot.value == j
    requires WrapperMembersAt(json, p + 1, true, Wrapper(None, None))
          == Ok(Wrapper(Some(typeText), Some(JsonSyntax.Text(j))), next)
    ensures WrapperAt(json, p, db) == Lift(WrapperMeaning(ms, db), next)
    decreases ms, 7
  {
    var t := WrapperCases(json, p, ms, ti, vi, typeText, j, next, db);
    if t.Some? {
      WrappedValue(ms, vi, j, t.value, db);
    }
  }

  /** The value member is decoded from its own text. */
  lemma {:induction false} WrappedValue(ms: seq<Member>, vi: nat, j: Json, t: LogicalType, db: Database)
    requires vi < |ms| && MemberOk(ms[vi]) && ms[vi].slot.value == j
    ensures DecodeOneAt(JsonSyntax.Text(j), 0, t, db) == Lift(Meaning(j, t, db), |JsonSyntax.Text(j)|)
    decreases ms, 6
  {
    WholeText(JsonSyntax.Text(j));
    DecodeAgrees(JsonSyntax.Text(j), 0, j, t, db);
  }

  /** Both readings of a wrapper, side by side. */
  lemma WrapperCases(json: bytes, p: nat, ms: seq<Member>, ti: nat, vi: nat, typeText: bytes, j: Json, next: nat, db: Database)
    returns (t: Option<LogicalType>)
    requires p < |json| && json[p] == LBRACE && MembersOk(ms) && TypesAreStrings(ms)
    requires LastMember(ms, TYPE_KEY) == Some(ti) && LastMember(ms, VALUE_KEY) == Some(vi)
    requires MemberOk(ms[ti]) && ms[ti].slot.value.Str? && UnitsValue(ms[ti].slot.value.units) == typeText
    requires MemberOk(ms[vi]) && ms[vi].slot.value == j
    requires WrapperMembersAt(json, p + 1, true, Wrapper(None, None))
          == Ok(Wrapper(Some(typeText), Some(JsonSyntax.Text(j))), next)
    ensures WrapperMeaning(ms, db) == if t.None? then None else Meaning(j, t.value, db)
    ensures WrapperAt(json, p, db)
         == if t.None? then Err
            else match DecodeOneAt(JsonSyntax.Text(j), 0, t.value, db)
                 case Err => Err
                 case Ok(v, _) => Ok(v, next)
  {
    t := ParseType(typeText, 0);
    WrapperComplete(json, p, db, typeText, JsonSyntax.Text(j), next, t);
    WrapperMeaningIs(ms, ti, vi, t, db);
  }

  lemma WholeText(raw: bytes)
    ensures At(raw, 0, raw) && NumberEnds(raw, |raw|)
  {
    AtSlice(raw, 0, raw);
  }
}
