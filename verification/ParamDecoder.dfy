/**
 The decoder of query parameters: JSON text to SQL values, guided by an expected type, with
 the Mode B wrapper {"type": ..., "value": ...}. The functions give, for every byte string,
 what the methods of the same name without `At` compute; both are total.
 */
module ParamDecoder {
  import opened Bytes
  import opened JsonSyntax
  import opened JsonScan
  import opened Types
  import opened TypeParser

  /**
   What the decoder leaves to the database: conversion of a value to a type (a cast or the
   assembly of a nested value), and std::stod. None is an exception.
   */
  datatype Database = Database(convert: (Value, LogicalType) -> Option<Value>, stod: bytes -> Option<Value>)

  const TYPE_KEY: bytes := [116, 121, 112, 101]
  const VALUE_KEY: bytes := [118, 97, 108, 117, 101]
  const TYPE_NEEDLE: bytes := [QUOTE, 116, 121, 112, 101, QUOTE]
  const VALUE_NEEDLE: bytes := [QUOTE, 118, 97, 108, 117, 101, QUOTE]

  /** The substring test by which an object is taken for a Mode B wrapper. */
  predicate LooksWrapped(text: bytes) {
    Contains(text, TYPE_NEEDLE) && Contains(text, VALUE_NEEDLE)
  }

  // ---- scalars ----

  /** std::stoll. */
  function ParseSigned(s: bytes): Option<int> {
    var t := TrimLeft(s);
    var negative := t != [] && t[0] == MINUS;
    var body := if t != [] && (t[0] == MINUS || t[0] == PLUS) then t[1..] else t;
    var n := DigitRun(body, 0);
    if n == 0 then None
    else
      var v: int := DigitsValue(body[..n]);
      var signed := if negative then -v else v;
      if InRange(BIGINT, signed) then Some(signed) else None
  }

  predicate IsIntegerShaped(s: bytes) { forall i :: 0 <= i < |s| ==> s[i] != DOT && s[i] != 101 && s[i] != 69 }

  predicate TakesNumber(t: LogicalType) {
    match t
    case Scalar(id) => IntRange(id).Some? || id == FLOAT || id == DOUBLE
    case Decimal(_, _) => true
    case _ => false
  }

  function CoerceNumber(raw: bytes, t: LogicalType, db: Database): Option<Value> {
    if t.Any? then
      if IsIntegerShaped(raw) then
        match ParseSigned(raw)
        case None => None
        case Some(n) => Some(Int(n))
      else db.stod(raw)
    else if TakesNumber(t) then db.convert(Text(raw), t)
    else None
  }

  function CoerceString(text: bytes, t: LogicalType, db: Database): Option<Value> {
    if t == Scalar(VARCHAR) || t.Any? then Some(Text(text)) else db.convert(Text(text), t)
  }

  function CoerceBool(b: bool, t: LogicalType, db: Database): Option<Value> {
    if t == Scalar(BOOLEAN) || t.Any? then Some(Bool(b)) else db.convert(Bool(b), t)
  }

  function NumberEndAt(json: bytes, pos: nat): (p: nat)
    ensures pos <= p && (pos <= |json| ==> p <= |json|)
    decreases |json| - pos
  {
    if pos < |json| && NumByte(json[pos]) then NumberEndAt(json, pos + 1) else pos
  }

  function Lift<T>(v: Option<T>, next: nat): Parsed<T> {
    match v
    case None => Err
    case Some(x) => Ok(x, next)
  }

  // ---- fields ----

  /** The first field whose name is `name` but for case. */
  function FieldIndex(fields: seq<Field>, name: bytes, from: nat): (i: Option<nat>)
    ensures i.Some? ==> from <= i.value < |fields| && Lower(fields[i.value].name) == Lower(name)
    ensures i.None? ==> forall k :: from <= k < |fields| ==> Lower(fields[k].name) != Lower(name)
    ensures i.Some? ==> forall k :: from <= k < i.value ==> Lower(fields[k].name) != Lower(name)
    decreases |fields| - from
  {
    if from >= |fields| then None
    else if Lower(fields[from].name) == Lower(name) then Some(from)
    else FieldIndex(fields, name, from + 1)
  }

  /** Fields that were not mentioned are NULL. */
  function Backfill(filled: seq<Option<Value>>): (vs: seq<Value>)
    ensures |vs| == |filled|
    ensures forall i :: 0 <= i < |vs| ==> vs[i] == if filled[i].Some? then filled[i].value else Value.Null
  {
    seq(|filled|, i requires 0 <= i < |filled| => if filled[i].Some? then filled[i].value else Value.Null)
  }

  function Unfilled(n: nat): seq<Option<Value>> { seq(n, i => None) }

  // ---- the decoder ----

  function DecodeOneAt(json: bytes, pos: nat, t: LogicalType, db: Database): (r: Parsed<Value>)
    ensures r.Ok? ==> pos < r.next <= |json|
    decreases |json| - pos, 3
  {
    DecodeHere(json, SkipSpace(json, pos), t, db)
  }

  /** DecodeOne behind the leading whitespace. */
  function DecodeHere(json: bytes, p: nat, t: LogicalType, db: Database): (r: Parsed<Value>)
    ensures r.Ok? ==> p < r.next <= |json|
    decreases |json| - p, 2
  {
    if p >= |json| then Err
    else
      var c := json[p];
      if c == 110 then
        if At(json, p, NULL_TEXT) then Ok(Value.Null, p + 4) else Err
      else if c == 116 then
        if At(json, p, TRUE_TEXT) then Lift(CoerceBool(true, t, db), p + 4) else Err
      else if c == 102 then
        if At(json, p, FALSE_TEXT) then Lift(CoerceBool(false, t, db), p + 5) else Err
      else if c == QUOTE then
        match StringAt(json, p)
        case Err => Err
        case Ok(s, next) => Lift(CoerceString(s, t, db), next)
      else if c == MINUS || IsDigit(c) then
        var end := NumberEndAt(json, p + 1);
        Lift(CoerceNumber(json[p..end], t, db), end)
      else if c == LBRACE then ObjectAt(json, p, t, db)
      else if c == LBRACKET then ArrayAt(json, p, t, db)
      else Err
  }

  /** A value that starts with a brace: a wrapper if it looks like one, a STRUCT otherwise. */
  function ObjectAt(json: bytes, p: nat, t: LogicalType, db: Database): (r: Parsed<Value>)
    requires p < |json| && json[p] == LBRACE
    ensures r.Ok? ==> p < r.next <= |json|
    decreases |json| - p, 1, 1
  {
    var raw := RawValueAt(json, p);
    if raw.Ok? && LooksWrapped(raw.value) then WrapperAt(json, p, db)
    else if !t.Struct? then Err
    else
      match MembersAt(json, p + 1, true, t.fields, Unfilled(|t.fields|), db)
      case Err => Err
      case Ok(filled, next) => Lift(db.convert(Row(Backfill(filled)), t), next)
  }

  /** A value that starts with a bracket: LIST, ARRAY or MAP. */
  function ArrayAt(json: bytes, p: nat, t: LogicalType, db: Database): (r: Parsed<Value>)
    requires p < |json|
    ensures r.Ok? ==> p < r.next <= |json|
    decreases |json| - p, 1, 1
  {
    match t
    case List(child) =>
      (match ElementsAt(json, p + 1, true, child, db)
       case Err => Err
       case Ok(vs, next) => Lift(db.convert(Elements(vs), t), next))
    case Array(child, size) =>
      (match ElementsAt(json, p + 1, true, child, db)
       case Err => Err
       case Ok(vs, next) => if |vs| != size then Err else Lift(db.convert(Elements(vs), t), next))
    case Map(key, value) =>
      (match PairsAt(json, p + 1, true, key, value, db)
       case Err => Err
       case Ok(es, next) => Lift(db.convert(Pairs(es), t), next))
    case _ => Err
  }

  /** Where the next element of an object or array starts: behind the comma unless it is the first. */
  function NextAt(json: bytes, pos: nat, first: bool): (r: Parsed<()>)
    ensures r.Ok? ==> pos <= r.next && (pos <= |json| ==> r.next <= |json|)
  {
    if first then Ok((), pos) else ConsumeAt(json, pos, COMMA)
  }

  function KeyAt(json: bytes, pos: nat, first: bool): (r: Parsed<bytes>)
    ensures r.Ok? ==> pos < r.next <= |json|
  {
    match NextAt(json, pos, first)
    case Err => Err
    case Ok(_, start) =>
      match StringAt(json, start)
      case Err => Err
      case Ok(key, next) =>
        match ConsumeAt(json, next, COLON)
        case Err => Err
        case Ok(_, after) => Ok(key, after)
  }

  predicate ClosesAt(json: bytes, p: nat, close: byte) { p < |json| && json[p] == close }

  function MembersAt(json: bytes, pos: nat, first: bool, fields: seq<Field>, filled: seq<Option<Value>>, db: Database)
    : (r: Parsed<seq<Option<Value>>>)
    requires |filled| == |fields|
    ensures r.Ok? ==> pos < r.next <= |json| && |r.value| == |fields|
    decreases |json| - pos, 0
  {
    var p := SkipSpace(json, pos);
    if ClosesAt(json, p, RBRACE) then Ok(filled, p + 1)
    else
      match KeyAt(json, p, first)
      case Err => Err
      case Ok(key, after) =>
        match FieldIndex(fields, key, 0)
        case None => Err
        case Some(i) =>
          if filled[i].Some? then Err
          else
            match DecodeOneAt(json, after, fields[i].fieldType, db)
            case Err => Err
            case Ok(v, next) => MembersAt(json, next, false, fields, filled[i := Some(v)], db)
  }

  function ElementsAt(json: bytes, pos: nat, first: bool, child: LogicalType, db: Database): (r: Parsed<seq<Value>>)
    ensures r.Ok? ==> pos < r.next <= |json|
    decreases |json| - pos, 4
  {
    var p := SkipSpace(json, pos);
    if ClosesAt(json, p, RBRACKET) then Ok([], p + 1)
    else
      match NextAt(json, p, first)
      case Err => Err
      case Ok(_, start) =>
        match DecodeOneAt(json, start, child, db)
        case Err => Err
        case Ok(v, next) =>
          match ElementsAt(json, next, false, child, db)
          case Err => Err
          case Ok(vs, end) => Ok([v] + vs, end)
  }

  /** One [key, value] pair of a MAP. */
  function PairAt(json: bytes, pos: nat, key: LogicalType, value: LogicalType, db: Database): (r: Parsed<Entry>)
    ensures r.Ok? ==> pos < r.next <= |json|
    decreases |json| - pos, 4
  {
    match ConsumeAt(json, pos, LBRACKET)
    case Err => Err
    case Ok(_, p0) =>
      match DecodeOneAt(json, p0, key, db)
      case Err => Err
      case Ok(k, p1) =>
        match PairRestAt(json, p1, value, db)
        case Err => Err
        case Ok(v, p2) => Ok(Entry(k, v), p2)
  }

  /** A pair from behind its key: comma, value, bracket. */
  function PairRestAt(json: bytes, pos: nat, value: LogicalType, db: Database): (r: Parsed<Value>)
    ensures r.Ok? ==> pos < r.next <= |json|
    decreases |json| - pos, 4
  {
    match ConsumeAt(json, pos, COMMA)
    case Err => Err
    case Ok(_, p0) =>
      match DecodeOneAt(json, p0, value, db)
      case Err => Err
      case Ok(v, p1) =>
        match ConsumeAt(json, p1, RBRACKET)
        case Err => Err
        case Ok(_, p2) => Ok(v, p2)
  }

  function PairsAt(json: bytes, pos: nat, first: bool, key: LogicalType, value: LogicalType, db: Database)
    : (r: Parsed<seq<Entry>>)
    ensures r.Ok? ==> pos < r.next <= |json|
    decreases |json| - pos, 5
  {
    var p := SkipSpace(json, pos);
    if ClosesAt(json, p, RBRACKET) then Ok([], p + 1)
    else
      match NextAt(json, p, first)
      case Err => Err
      case Ok(_, start) =>
        match PairAt(json, start, key, value, db)
        case Err => Err
        case Ok(e, next) =>
          match PairsAt(json, next, false, key, value, db)
          case Err => Err
          case Ok(es, end) => Ok([e] + es, end)
  }

  /** The two members of a wrapper as read so far. */
  datatype Wrapper = Wrapper(typeText: Option<bytes>, valueText: Option<bytes>)

  function WrapperMembersAt(json: bytes, pos: nat, first: bool, w: Wrapper): (r: Parsed<Wrapper>)
    ensures r.Ok? ==> pos < r.next <= |json|
    ensures r.Ok? && r.value.valueText.Some? ==>
              r.value.valueText == w.valueText || |r.value.valueText.value| <= |json| - pos
    decreases |json| - pos
  {
    var p := SkipSpace(json, pos);
    if ClosesAt(json, p, RBRACE) then Ok(w, p + 1)
    else
      match KeyAt(json, p, first)
      case Err => Err
      case Ok(key, after) =>
        if key == TYPE_KEY then
          match StringAt(json, after)
          case Err => Err
          case Ok(s, next) => WrapperMembersAt(json, next, false, w.(typeText := Some(s)))
        else
          match RawValueAt(json, after)
          case Err => Err
          case Ok(raw, next) =>
            WrapperMembersAt(json, next, false, if key == VALUE_KEY then w.(valueText := Some(raw)) else w)
  }

  function WrapperAt(json: bytes, p: nat, db: Database): (r: Parsed<Value>)
    ensures r.Ok? ==> p < r.next <= |json|
    decreases |json| - p, 1, 0
  {
    match ConsumeAt(json, p, LBRACE)
    case Err => Err
    case Ok(_, start) =>
      match WrapperMembersAt(json, start, true, Wrapper(None, None))
      case Err => Err
      case Ok(w, next) =>
        if w.typeText.None? || w.valueText.None? then Err
        else Lift(WrappedAt(w.typeText.value, w.valueText.value, db), next)
  }

  /** The value text of a wrapper, decoded on its own at the type its type text spells. */
  function WrappedAt(typeText: bytes, valueText: bytes, db: Database): Option<Value>
    decreases |valueText|, 4
  {
    match ParseType(typeText, 0)
    case None => None
    case Some(t) =>
      match DecodeOneAt(valueText, 0, t, db)
      case Err => None
      case Ok(v, _) => Some(v)
  }

  /** The parameters of a statement from `pos` on; with no expected types every one is ANY. */
  function ParamsAt(json: bytes, pos: nat, index: nat, types: seq<LogicalType>, db: Database): (r: Parsed<seq<Value>>)
    ensures r.Ok? ==> pos < r.next <= |json|
    decreases |json| - pos
  {
    var p := SkipSpace(json, pos);
    if ClosesAt(json, p, RBRACKET) then Ok([], p + 1)
    else
      match NextAt(json, p, index == 0)
      case Err => Err
      case Ok(_, start) =>
        if types != [] && index >= |types| then Err
        else
          match DecodeOneAt(json, start, if types == [] then Any else types[index], db)
          case Err => Err
          case Ok(v, next) =>
            match ParamsAt(json, next, index + 1, types, db)
            case Err => Err
            case Ok(vs, end) => Ok([v] + vs, end)
  }

  function StripRight(s: bytes): (r: bytes)
    ensures |r| <= |s|
  {
    if s != [] && IsSpace(s[|s| - 1]) then StripRight(s[..|s| - 1]) else s
  }

  /** Decode: the whole `params` text against the expected types. */
  function DecodeParams(paramsText: bytes, types: seq<LogicalType>, db: Database): Option<seq<Value>> {
    var right := StripRight(paramsText);
    var json := right[SkipSpace(right, 0)..];
    if json == [] || json == [LBRACKET, RBRACKET] then
      if types == [] then Some([]) else None
    else
      match ConsumeAt(json, 0, LBRACKET)
      case Err => None
      case Ok(_, start) =>
        match ParamsAt(json, start, 0, types, db)
        case Err => None
        case Ok(vs, _) => if types != [] && |vs| != |types| then None else Some(vs)
  }

  // ---- the methods ----

  method DecodeOne(json: bytes, start: nat, t: LogicalType, db: Database) returns (r: Parsed<Value>)
    ensures r == DecodeOneAt(json, start, t, db)
    decreases |json| - start, 3
  {
    var pos := SkipWhitespace(json, start);
    if pos >= |json| {
      return Err;
    }
    var c := json[pos];
    if c == 110 {
      AtSlice(json, pos, NULL_TEXT);
      if pos + 4 <= |json| && json[pos..pos + 4] == NULL_TEXT {
        return Ok(Value.Null, pos + 4);
      }
      return Err;
    }
    if c == 116 || c == 102 {
      r := DecodeBool(json, pos, c == 116, t, db);
      return;
    }
    if c == QUOTE {
      r := DecodeText(json, pos, t, db);
    } else if c == MINUS || IsDigit(c) {
      r := DecodeNumber(json, pos, t, db);
    } else if c == LBRACE {
      r := DecodeObject(json, pos, t, db);
    } else if c == LBRACKET {
      r := DecodeArray(json, pos, t, db);
    } else {
      r := Err;
    }
  }

  method DecodeBool(json: bytes, pos: nat, b: bool, t: LogicalType, db: Database) returns (r: Parsed<Value>)
    ensures var literal := if b then TRUE_TEXT else FALSE_TEXT;
            r == if At(json, pos, literal) then Lift(CoerceBool(b, t, db), pos + |literal|) else Err
  {
    var literal := if b then TRUE_TEXT else FALSE_TEXT;
    AtSlice(json, pos, literal);
    if !(pos + |literal| <= |json| && json[pos..pos + |literal|] == literal) {
      return Err;
    }
    return Lift(CoerceBool(b, t, db), pos + |literal|);
  }

  method DecodeText(json: bytes, pos: nat, t: LogicalType, db: Database) returns (r: Parsed<Value>)
    requires SkipSpace(json, pos) == pos < |json| && json[pos] == QUOTE
    ensures r == match StringAt(json, pos) case Err => Err case Ok(s, next) => Lift(CoerceString(s, t, db), next)
  {
    var s := ParseString(json, pos);
    if s.Err? {
      return Err;
    }
    return Lift(CoerceString(s.value, t, db), s.next);
  }

  method DecodeNumber(json: bytes, pos: nat, t: LogicalType, db: Database) returns (r: Parsed<Value>)
    requires pos < |json|
    ensures var end := NumberEndAt(json, pos + 1);
            r == Lift(CoerceNumber(json[pos..end], t, db), end)
  {
    var end := ScanNumber(json, pos + 1);
    return Lift(CoerceNumber(json[pos..end], t, db), end);
  }

  method ScanNumber(json: bytes, start: nat) returns (end: nat)
    ensures end == NumberEndAt(json, start)
  {
    end := start;
    while end < |json| && NumByte(json[end])
      invariant NumberEndAt(json, start) == NumberEndAt(json, end)
    {
      end := end + 1;
    }
  }

  method DecodeObject(json: bytes, pos: nat, t: LogicalType, db: Database) returns (r: Parsed<Value>)
    requires pos < |json| && json[pos] == LBRACE
    ensures r == ObjectAt(json, pos, t, db)
    decreases |json| - pos, 2
  {
    var raw := ParseRawValue(json, pos);
    var wrapped := false;
    if raw.Ok? {
      wrapped := Find(raw.value, TYPE_NEEDLE);
      if wrapped {
        wrapped := Find(raw.value, VALUE_NEEDLE);
      }
    }
    if wrapped {
      r := DecodeTypedWrapper(json, pos, db);
      return;
    }
    if !t.Struct? {
      return Err;
    }
    var filled := DecodeStruct(json, pos + 1, t.fields, db);
    if filled.Err? {
      return Err;
    }
    return Lift(db.convert(Row(Backfill(filled.value)), t), filled.next);
  }

  method DecodeArray(json: bytes, pos: nat, t: LogicalType, db: Database) returns (r: Parsed<Value>)
    requires pos < |json|
    ensures r == ArrayAt(json, pos, t, db)
    decreases |json| - pos, 2
  {
    if t.List? {
      var vs := DecodeElements(json, pos + 1, t.child, db);
      return if vs.Err? then Err else Lift(db.convert(Elements(vs.value), t), vs.next);
    } else if t.Array? {
      var vs := DecodeElements(json, pos + 1, t.child, db);
      return if vs.Err? || |vs.value| != t.size then Err else Lift(db.convert(Elements(vs.value), t), vs.next);
    } else if t.Map? {
      var es := DecodePairs(json, pos + 1, t.key, t.value, db);
      return if es.Err? then Err else Lift(db.convert(Pairs(es.value), t), es.next);
    }
    return Err;
  }

  method ParseKey(json: bytes, pos: nat, first: bool) returns (r: Parsed<bytes>)
    ensures r == KeyAt(json, pos, first)
  {
    var start := pos;
    if !first {
      var comma := ConsumeChar(json, pos, COMMA);
      if comma.Err? {
        return Err;
      }
      start := comma.next;
    }
    var key := ParseString(json, start);
    if key.Err? {
      return Err;
    }
    var colon := ConsumeChar(json, key.next, COLON);
    if colon.Err? {
      return Err;
    }
    return Ok(key.value, colon.next);
  }

  method DecodeStruct(json: bytes, start: nat, fields: seq<Field>, db: Database)
    returns (r: Parsed<seq<Option<Value>>>)
    ensures r == MembersAt(json, start, true, fields, Unfilled(|fields|), db)
    decreases |json| - start, 4
  {
    var filled := Unfilled(|fields|);
    var first := true;
    var pos := start;
    while true
      invariant start <= pos && |filled| == |fields|
      invariant MembersAt(json, start, true, fields, Unfilled(|fields|), db)
             == MembersAt(json, pos, first, fields, filled, db)
      decreases |json| - pos
    {
      var p := SkipWhitespace(json, pos);
      if p < |json| && json[p] == RBRACE {
        return Ok(filled, p + 1);
      }
      var key := ParseKey(json, p, first);
      if key.Err? {
        return Err;
      }
      first := false;
      var i := FieldIndex(fields, key.value, 0);
      if i.None? {
        return Err;
      }
      if filled[i.value].Some? {
        return Err;
      }
      var v := DecodeOne(json, key.next, fields[i.value].fieldType, db);
      if v.Err? {
        return Err;
      }
      filled := filled[i.value := Some(v.value)];
      pos := v.next;
    }
  }

  ghost function WithElements<T>(done: seq<T>, rest: Parsed<seq<T>>): Parsed<seq<T>> {
    match rest
    case Err => Err
    case Ok(vs, next) => Ok(done + vs, next)
  }

  lemma NothingMore<T>(done: seq<T>, next: nat)
    ensures WithElements(done, Ok([], next)) == Ok(done, next)
  {
    assert done + [] == done;
  }

  lemma MoveElement<T>(done: seq<T>, v: T, rest: Parsed<seq<T>>)
    ensures WithElements(done, WithElements([v], rest)) == WithElements(done + [v], rest)
  {
    if rest.Ok? { assert done + ([v] + rest.value) == done + [v] + rest.value; }
  }

  lemma NoElements<T>(rest: Parsed<seq<T>>)
    ensures WithElements([], rest) == rest
  {
    if rest.Ok? { assert [] + rest.value == rest.value; }
  }

  method DecodeElements(json: bytes, start: nat, child: LogicalType, db: Database) returns (r: Parsed<seq<Value>>)
    requires start <= |json|
    ensures r == ElementsAt(json, start, true, child, db)
    decreases |json| - start, 4
  {
    var vs: seq<Value> := [];
    var first := true;
    var pos := start;
    ghost var whole := ElementsAt(json, start, true, child, db);
    NoElements(whole);
    while true
      invariant start <= pos
      invariant whole == WithElements(vs, ElementsAt(json, pos, first, child, db))
      decreases |json| - pos
    {
      var p := SkipWhitespace(json, pos);
      if p < |json| && json[p] == RBRACKET {
        NothingMore(vs, p + 1);
        return Ok(vs, p + 1);
      }
      var at := p;
      if !first {
        var comma := ConsumeChar(json, p, COMMA);
        if comma.Err? {
          return Err;
        }
        at := comma.next;
      }
      first := false;
      var v := DecodeOne(json, at, child, db);
      if v.Err? {
        return Err;
      }
      MoveElement(vs, v.value, ElementsAt(json, v.next, false, child, db));
      vs := vs + [v.value];
      pos := v.next;
    }
  }

  method DecodePair(json: bytes, start: nat, key: LogicalType, value: LogicalType, db: Database)
    returns (r: Parsed<Entry>)
    ensures r == PairAt(json, start, key, value, db)
    decreases |json| - start, 4
  {
    var open := ConsumeChar(json, start, LBRACKET);
    if open.Err? {
      return Err;
    }
    var k := DecodeOne(json, open.next, key, db);
    if k.Err? {
      return Err;
    }
    var v := DecodePairValue(json, k.next, value, db);
    if v.Err? {
      return Err;
    }
    return Ok(Entry(k.value, v.value), v.next);
  }

  method DecodePairValue(json: bytes, start: nat, value: LogicalType, db: Database) returns (r: Parsed<Value>)
    ensures r == PairRestAt(json, start, value, db)
    decreases |json| - start, 4
  {
    var comma := ConsumeChar(json, start, COMMA);
    if comma.Err? {
      return Err;
    }
    var v := DecodeOne(json, comma.next, value, db);
    if v.Err? {
      return Err;
    }
    var close := ConsumeChar(json, v.next, RBRACKET);
    if close.Err? {
      return Err;
    }
    return Ok(v.value, close.next);
  }

  /** PairsAt once its separator and its first pair are known. */
  lemma PairsTurn(json: bytes, pos: nat, first: bool, key: LogicalType, value: LogicalType, db: Database,
                  start: Parsed<()>, e: Parsed<Entry>)
    requires !ClosesAt(json, SkipSpace(json, pos), RBRACKET) && NextAt(json, SkipSpace(json, pos), first) == start
    requires if start.Ok? then PairAt(json, start.next, key, value, db) == e else e == Err
    ensures e.Ok? ==> pos < e.next <= |json|
    ensures PairsAt(json, pos, first, key, value, db)
         == if e.Err? then Err else WithElements([e.value], PairsAt(json, e.next, false, key, value, db))
  {
    if start.Ok? && e.Ok? {
      var rest := PairsAt(json, e.next, false, key, value, db);
      if rest.Ok? { assert PairsAt(json, pos, first, key, value, db) == Ok([e.value] + rest.value, rest.next); }
    }
  }

  /** A pair with the separator in front of it. */
  method DecodeNextPair(json: bytes, pos: nat, first: bool, key: LogicalType, value: LogicalType, db: Database)
    returns (e: Parsed<Entry>, ghost left: Parsed<seq<Entry>>)
    requires !ClosesAt(json, SkipSpace(json, pos), RBRACKET)
    ensures e.Ok? ==> pos < e.next <= |json|
    ensures e.Err? ==> PairsAt(json, pos, first, key, value, db) == Err
    ensures e.Ok? ==> PairsAt(json, pos, first, key, value, db) == WithElements([e.value], left)
    ensures e.Ok? ==> left == PairsAt(json, e.next, false, key, value, db)
    decreases |json| - pos, 5
  {
    var at := SkipWhitespace(json, pos);
    if !first {
      var comma := ConsumeChar(json, at, COMMA);
      if comma.Err? {
        PairsTurn(json, pos, first, key, value, db, Err, Err);
        return Err, Err;
      }
      at := comma.next;
    }
    e := DecodePair(json, at, key, value, db);
    PairsTurn(json, pos, first, key, value, db, Ok((), at), e);
    left := if e.Ok? then PairsAt(json, e.next, false, key, value, db) else Err;
  }

  method DecodePairs(json: bytes, start: nat, key: LogicalType, value: LogicalType, db: Database)
    returns (r: Parsed<seq<Entry>>)
    requires start <= |json|
    ensures r == PairsAt(json, start, true, key, value, db)
    decreases |json| - start, 6
  {
    var es: seq<Entry> := [];
    var first := true;
    var pos := start;
    ghost var whole := PairsAt(json, start, true, key, value, db);
    ghost var left := whole;
    NoElements(left);
    while true
      invariant start <= pos && left == PairsAt(json, pos, first, key, value, db)
      invariant whole == WithElements(es, left)
      decreases |json| - pos
    {
      var p := SkipWhitespace(json, pos);
      if p < |json| && json[p] == RBRACKET {
        NothingMore(es, p + 1);
        return Ok(es, p + 1);
      }
      var e;
      e, left := DecodeNextPair(json, pos, first, key, value, db);
      if e.Err? {
        return Err;
      }
      MoveElement(es, e.value, left);
      es := es + [e.value];
      first := false;
      pos := e.next;
    }
  }

  method DecodeTypedWrapper(json: bytes, start: nat, db: Database) returns (r: Parsed<Value>)
    ensures r == WrapperAt(json, start, db)
    decreases |json| - start, 1
  {
    var open := ConsumeChar(json, start, LBRACE);
    if open.Err? {
      return Err;
    }
    var pos := open.next;
    var w := Wrapper(None, None);
    var first := true;
    ghost var all := WrapperMembersAt(json, open.next, true, w);
    while true
      invariant start < pos
      invariant all == WrapperMembersAt(json, pos, first, w)
      decreases |json| - pos
    {
      var p := SkipWhitespace(json, pos);
      if p < |json| && json[p] == RBRACE {
        pos := p + 1;
        break;
      }
      var key := ParseKey(json, p, first);
      if key.Err? {
        return Err;
      }
      first := false;
      if key.value == TYPE_KEY {
        var s := ParseString(json, key.next);
        if s.Err? {
          return Err;
        }
        w := w.(typeText := Some(s.value));
        pos := s.next;
      } else {
        var raw := ParseRawValue(json, key.next);
        if raw.Err? {
          return Err;
        }
        if key.value == VALUE_KEY {
          w := w.(valueText := Some(raw.value));
        }
        pos := raw.next;
      }
    }
    if w.typeText.None? {
      return Err;
    }
    if w.valueText.None? {
      return Err;
    }
    var t := ParseLogicalType(w.typeText.value, 0);
    if t.None? {
      return Err;
    }
    var v := DecodeOne(w.valueText.value, 0, t.value, db);
    return if v.Err? then Err else Ok(v.value, pos);
  }

  method Decode(paramsText: bytes, types: seq<LogicalType>, db: Database) returns (r: Option<seq<Value>>)
    ensures r == DecodeParams(paramsText, types, db)
  {
    var json := paramsText;
    while json != [] && IsSpace(json[|json| - 1])
      invariant StripRight(paramsText) == StripRight(json)
    {
      json := json[..|json| - 1];
    }
    var lead := SkipWhitespace(json, 0);
    json := json[lead..];
    if json == [] || json == [LBRACKET, RBRACKET] {
      return if types == [] then Some([]) else None;
    }
    var open := ConsumeChar(json, 0, LBRACKET);
    if open.Err? {
      return None;
    }
    var values := DecodeList(json, open.next, types, db);
    if values.Err? {
      return None;
    }
    if types != [] && |values.value| != |types| {
      return None;
    }
    return Some(values.value);
  }

  /** Taking one parameter off: what ParamsAt does before its next turn. */
  lemma ParamsTurn(json: bytes, pos: nat, index: nat, types: seq<LogicalType>, db: Database, start: Parsed<()>,
                   v: Parsed<Value>)
    requires !ClosesAt(json, SkipSpace(json, pos), RBRACKET) && NextAt(json, SkipSpace(json, pos), index == 0) == start
    requires if start.Ok? && (types == [] || index < |types|)
             then DecodeOneAt(json, start.next, if types == [] then Any else types[index], db) == v else v == Err
    ensures v.Ok? ==> pos < v.next <= |json|
    ensures ParamsAt(json, pos, index, types, db)
         == if v.Err? then Err else WithElements([v.value], ParamsAt(json, v.next, index + 1, types, db))
  {
    if start.Ok? && v.Ok? {
      var rest := ParamsAt(json, v.next, index + 1, types, db);
      if rest.Ok? { assert ParamsAt(json, pos, index, types, db) == Ok([v.value] + rest.value, rest.next); }
    }
  }

  /** A parameter with the separator in front of it, refused when no more are expected. */
  method DecodeNextParam(json: bytes, pos: nat, index: nat, types: seq<LogicalType>, db: Database) returns (v: Parsed<Value>)
    requires !ClosesAt(json, SkipSpace(json, pos), RBRACKET)
    ensures v.Ok? ==> pos < v.next <= |json|
    ensures ParamsAt(json, pos, index, types, db)
         == if v.Err? then Err else WithElements([v.value], ParamsAt(json, v.next, index + 1, types, db))
  {
    var at := SkipWhitespace(json, pos);
    if index != 0 {
      var comma := ConsumeChar(json, at, COMMA);
      if comma.Err? {
        ParamsTurn(json, pos, index, types, db, Err, Err);
        return Err;
      }
      at := comma.next;
    }
    v := Err;
    if types == [] || index < |types| {
      v := DecodeOne(json, at, if types == [] then Any else types[index], db);
    }
    ParamsTurn(json, pos, index, types, db, Ok((), at), v);
  }

  method DecodeList(json: bytes, start: nat, types: seq<LogicalType>, db: Database) returns (r: Parsed<seq<Value>>)
    ensures r == ParamsAt(json, start, 0, types, db)
  {
    var values: seq<Value> := [];
    var pos := start;
    ghost var left := ParamsAt(json, start, 0, types, db);
    NoElements(left);
    while true
      invariant start <= pos && left == ParamsAt(json, pos, |values|, types, db)
      invariant ParamsAt(json, start, 0, types, db) == WithElements(values, left)
      decreases |json| - pos
    {
      var p := SkipWhitespace(json, pos);
      if p < |json| && json[p] == RBRACKET {
        NothingMore(values, p + 1);
        return Ok(values, p + 1);
      }
      var v := DecodeNextParam(json, pos, |values|, types, db);
      if v.Err? {
        return Err;
      }
      left := ParamsAt(json, v.next, |values| + 1, types, db);
      MoveElement(values, v.value, left);
      values := values + [v.value];
      pos := v.next;
    }
  }
}
