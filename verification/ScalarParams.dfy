/**
 What the decoder makes of scalars, said by the characters of the text: the value of an integer
 without an expected type, the types that take numbers, and the text of a Mode B wrapper.
 */
module ScalarParams {
  import opened Bytes
  import opened Utf8
  import opened Characters
  import opened JsonSyntax
  import opened JsonScan
  import opened JsonWriting
  import opened Types
  import opened ParamDecoder
  import opened JsonMeaning
  import opened WireFormat
  import opened ValueRoundTrip
  import opened ParamRules
  import TypeParser
  import TypeRoundTrip

  // ---- numbers ----

  /** An integer as JSON writes it: a minus sign or none, then digits. */
  function Integer(negative: bool, digits: bytes): bytes { (if negative then Ascii("-") else []) + digits }

  function Signed(negative: bool, n: nat): int {
    var v: int := n;
    if negative then -v else v
  }

  predicate AllDigits(s: bytes) { s != [] && forall i :: 0 <= i < |s| ==> IsDigit(s[i]) }

  lemma IntegerIsToken(negative: bool, digits: bytes)
    requires AllDigits(digits)
    ensures NumText(Integer(negative, digits)) && IsIntegerShaped(Integer(negative, digits))
  {
    assert Ascii("-") == [MINUS];
  }

  lemma {:induction false} IntegerIsRead(negative: bool, digits: bytes)
    requires AllDigits(digits)
    ensures var n := Signed(negative, DigitsValue(digits));
            ParseSigned(Integer(negative, digits))
            == if -0x8000_0000_0000_0000 <= n <= 0x7FFF_FFFF_FFFF_FFFF then Some(n) else None
  {
    assert Ascii("-") == [MINUS];
    var s := Integer(negative, digits);
    assert s == if negative then [MINUS] + digits else digits;
    SignIsRead(s, negative, digits);
    TypeRoundTrip.AllDigits(digits, 0);
    assert digits[..|digits|] == digits;
  }

  /** ParseSigned behind the sign. */
  lemma {:induction false} SignIsRead(s: bytes, negative: bool, digits: bytes)
    requires AllDigits(digits) && s == if negative then [MINUS] + digits else digits
    ensures TypeParser.TrimLeft(s) == s && (s[0] == MINUS <==> negative) && s[0] != PLUS
    ensures negative ==> s[1..] == digits
  {
  }

  /** Without an expected type an integer is worth its digits under its sign if that is a BIGINT, and is refused otherwise. */
  lemma {:induction false} IntegerAtAny(json: bytes, p: nat, negative: bool, digits: bytes, db: Database)
    requires AllDigits(digits) && At(json, p, Integer(negative, digits)) && NumberEnds(json, p + |Integer(negative, digits)|)
    ensures var n := Signed(negative, DigitsValue(digits));
            DecodeOneAt(json, p, Any, db)
            == if -0x8000_0000_0000_0000 <= n <= 0x7FFF_FFFF_FFFF_FFFF then Ok(Int(n), p + |Integer(negative, digits)|) else Err
  {
    IntegerIsToken(negative, digits);
    IntegerIsRead(negative, digits);
    DecodeAgrees(json, p, Num(Integer(negative, digits)), Any, db);
  }

  lemma NumeralForm(n: int) returns (digits: bytes)
    ensures AllDigits(digits) && Integer(n < 0, digits) == Bytes.Decimal(n) && Signed(n < 0, DigitsValue(digits)) == n
  {
    digits := Digits(if n < 0 then -n else n);
    DigitsRoundTrip(if n < 0 then -n else n);
    assert Ascii("-") == [MINUS] && [] + digits == digits;
  }

  /** So the numeral of an integer is worth that integer exactly when it is a BIGINT. */
  lemma {:induction false} NumeralAtAny(json: bytes, p: nat, n: int, db: Database)
    requires At(json, p, Bytes.Decimal(n)) && NumberEnds(json, p + |Bytes.Decimal(n)|)
    ensures DecodeOneAt(json, p, Any, db)
         == if -0x8000_0000_0000_0000 <= n <= 0x7FFF_FFFF_FFFF_FFFF then Ok(Int(n), p + |Bytes.Decimal(n)|) else Err
  {
    var digits := NumeralForm(n);
    IntegerAtAny(json, p, n < 0, digits, db);
  }

  /** A number with a point or an exponent is what std::stod makes of its text. */
  lemma {:induction false} FractionAtAny(json: bytes, p: nat, s: bytes, i: nat, db: Database)
    requires NumText(s) && At(json, p, s) && NumberEnds(json, p + |s|) && i < |s| && OneOf(s[i], ".eE")
    ensures DecodeOneAt(json, p, Any, db)
         == match db.stod(s) case None => Err case Some(v) => Ok(v, p + |s|)
  {
    var marks := ".eE";
    assert marks[0] == '.' && marks[1] == 'e' && marks[2] == 'E';
    assert !IsIntegerShaped(s);
    DecodeAgrees(json, p, Num(s), Any, db);
  }

  /** With an expected type a number is converted if the type is an integer type, FLOAT, DOUBLE or DECIMAL, and refused otherwise. */
  lemma {:induction false} NumberAtType(json: bytes, p: nat, s: bytes, t: LogicalType, db: Database)
    requires NumText(s) && At(json, p, s) && NumberEnds(json, p + |s|) && !t.Any?
    ensures var numeric := {TINYINT, SMALLINT, INTEGER, BIGINT, HUGEINT, UTINYINT, USMALLINT, UINTEGER, UBIGINT, UHUGEINT, FLOAT, DOUBLE};
            DecodeOneAt(json, p, t, db)
            == if t.Decimal? || (t.Scalar? && t.id in numeric)
               then match db.convert(Value.Text(s), t) case None => Err case Some(v) => Ok(v, p + |s|)
               else Err
  {
    DecodeAgrees(json, p, Num(s), t, db);
  }

  // ---- the other scalars ----

  /** A string is itself without an expected type and at VARCHAR, and is converted at every other type. */
  lemma {:induction false} StringAtType(json: bytes, p: nat, us: seq<StrUnit>, t: LogicalType, db: Database)
    requires UnitsOk(us) && At(json, p, StrText(us))
    ensures DecodeOneAt(json, p, t, db)
         == if t.Any? || (t.Scalar? && t.id.VARCHAR?) then Ok(Value.Text(UnitsValue(us)), p + |StrText(us)|)
            else match db.convert(Value.Text(UnitsValue(us)), t) case None => Err case Some(v) => Ok(v, p + |StrText(us)|)
  {
    DecodeAgrees(json, p, Str(us), t, db);
  }

  /** A truth value is itself without an expected type and at BOOLEAN, and is converted at every other type. */
  lemma {:induction false} BoolAtType(json: bytes, p: nat, b: bool, t: LogicalType, db: Database)
    requires At(json, p, if b then Ascii("true") else Ascii("false"))
    ensures var end := p + if b then 4 else 5;
            DecodeOneAt(json, p, t, db)
            == if t.Any? || (t.Scalar? && t.id.BOOLEAN?) then Ok(Bool(b), end)
               else match db.convert(Bool(b), t) case None => Err case Some(v) => Ok(v, end)
  {
    JsonWords();
    DecodeAgrees(json, p, if b then True else False, t, db);
  }

  /** null is NULL at every type. */
  lemma {:induction false} NullAtType(json: bytes, p: nat, t: LogicalType, db: Database)
    requires At(json, p, Ascii("null"))
    ensures DecodeOneAt(json, p, t, db) == Ok(Value.Null, p + 4)
  {
    JsonWords();
    DecodeAgrees(json, p, Json.Null, t, db);
  }

  /** An array is refused at every type but LIST, ARRAY and MAP. */
  lemma {:induction false} ArrayIsRefused(json: bytes, p: nat, items: seq<Slot>, pad: bytes, t: LogicalType, db: Database)
    requires WellFormedJson(Arr(items, pad)) && At(json, p, JsonSyntax.Text(Arr(items, pad)))
    requires !t.List? && !t.Array? && !t.Map?
    ensures DecodeOneAt(json, p, t, db) == Err
  {
    DecodeAgrees(json, p, Arr(items, pad), t, db);
  }

  // ---- Mode B ----

  /** The text of {"type": name, "value": j}. */
  function Wrapped(name: bytes, j: Json): bytes {
    Braces([Item("type", StrText(Escaped(name))), Item("value", JsonSyntax.Text(j))])
  }

  /** Such a text is worth, whatever type is expected, what `j` means at the type the name spells. */
  lemma {:induction false} WrapperText(json: bytes, p: nat, text: bytes, name: bytes, j: Json, spelled: LogicalType, t: LogicalType,
                                       db: Database)
    requires WellFormed(name) && WellFormedJson(j) && TypeParser.ParseType(name, 0) == Some(spelled)
    requires text == Wrapped(name, j) && At(json, p, text)
    ensures DecodeOneAt(json, p, t, db) == Lift(Meaning(j, spelled, db), p + |text|)
  {
    var ms := TwoMembersWrapped(name, j, spelled, db);
    WrapperDecodes(json, p, text, ms, t, db, Meaning(j, spelled, db));
  }

  lemma TwoMembersWrapped(name: bytes, j: Json, spelled: LogicalType, db: Database) returns (ms: seq<Member>)
    requires WellFormed(name) && WellFormedJson(j) && TypeParser.ParseType(name, 0) == Some(spelled)
    ensures MembersOk(ms) && JsonSyntax.Text(Obj(ms, [])) == Wrapped(name, j) && LooksWrapped(JsonSyntax.Text(Obj(ms, [])))
    ensures WrapperMeaning(ms, db) == Meaning(j, spelled, db)
  {
    ms := TwoMembers(name, j);
    NeedlesAreKeys();
    TwoKeysOccur(ms, TYPE_NEEDLE, VALUE_NEEDLE);
    WrapperTree(name, j);
    WrapperOfTwo(name, j, spelled, db);
  }

  lemma {:induction false} WrapperDecodes(json: bytes, p: nat, text: bytes, ms: seq<Member>, t: LogicalType, db: Database,
                                          m: Option<Value>)
    requires MembersOk(ms) && text == JsonSyntax.Text(Obj(ms, [])) && LooksWrapped(text) && WrapperMeaning(ms, db) == m
    requires At(json, p, text)
    ensures DecodeOneAt(json, p, t, db) == Lift(m, p + |text|)
  {
    var j := WrapperMeans(ms, text, t, db);
    DecodesTo(json, p, text, j, t, db, m);
  }

  lemma {:induction false} WrapperMeans(ms: seq<Member>, text: bytes, t: LogicalType, db: Database) returns (j: Json)
    requires MembersOk(ms) && text == JsonSyntax.Text(Obj(ms, [])) && LooksWrapped(text)
    ensures !j.Num? && WellFormedJson(j) && JsonSyntax.Text(j) == text && Meaning(j, t, db) == WrapperMeaning(ms, db)
  {
    j := Obj(ms, []);
    ObjectMeaning(ms, [], t, db, true);
  }

  lemma {:induction false} DecodesTo(json: bytes, p: nat, text: bytes, j: Json, t: LogicalType, db: Database, m: Option<Value>)
    requires WellFormedJson(j) && JsonSyntax.Text(j) == text && At(json, p, text) && !j.Num? && Meaning(j, t, db) == m
    ensures DecodeOneAt(json, p, t, db) == Lift(m, p + |text|)
  {
    DecodeAgrees(json, p, j, t, db);
  }

  lemma TwoKeysOccur(ms: seq<Member>, first: bytes, second: bytes)
    requires |ms| == 2 && StrText(ms[0].key) == first && StrText(ms[1].key) == second
    ensures Contains(JsonSyntax.Text(Obj(ms, [])), first) && Contains(JsonSyntax.Text(Obj(ms, [])), second)
  {
    var at := KeyOccurs(ms, 0, true);
    MembersInText(ms, at, first);
    at := KeyOccurs(ms, 1, true);
    MembersInText(ms, at, second);
  }

  lemma WrapperTree(name: bytes, j: Json)
    ensures JsonSyntax.Text(Obj(TwoMembers(name, j), [])) == Wrapped(name, j)
  {
    EndKeys();
    TagKeys();
    KeyLiterals();
    TwoMembersText("type", Str(Escaped(name)), "value", j);
  }
}
