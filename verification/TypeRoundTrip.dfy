/**
 Spellings of type strings as syntax trees, and the proof that the parser reads every
 spelling back as the type it denotes, up to the nesting and length limits.
 */
module TypeRoundTrip {
  import opened Bytes
  import opened Types
  import opened TypeParser
  import opened TypeNames

  /** A spelling: the keywords in any case, numbers with any leading zeros. */
  datatype Spelling =
    | SScalar(word: bytes, id: ScalarId)
    | SDecimal(word: bytes, width: bytes, scale: bytes)
    | SList(word: bytes, child: Spelling)
    | SArray(word: bytes, child: Spelling, size: bytes)
    | SMap(word: bytes, key: Spelling, value: Spelling)
    | SStruct(word: bytes, fields: seq<SField>)

  datatype SField = SField(name: bytes, fieldType: Spelling)

  function TypeText(s: Spelling): bytes
    decreases s, 1
  {
    match s
    case SScalar(word, _) => word
    case SDecimal(word, width, scale) => word + [LPAREN] + (width + [COMMA] + scale) + [RPAREN]
    case SList(word, child) => word + [LESS] + TypeText(child) + [GREATER]
    case SArray(word, child, size) => word + [LESS] + (TypeText(child) + [COMMA] + size) + [GREATER]
    case SMap(word, key, value) => word + [LESS] + (TypeText(key) + [COMMA] + TypeText(value)) + [GREATER]
    case SStruct(word, fields) => word + [LPAREN] + FieldsText(fields) + [RPAREN]
  }

  function FieldText(f: SField): bytes
    decreases f, 2
  {
    f.name + [SPACE] + TypeText(f.fieldType)
  }

  function FieldsText(fs: seq<SField>): bytes
    decreases fs, 3
  {
    if fs == [] then [] else if |fs| == 1 then FieldText(fs[0]) else FieldText(fs[0]) + [COMMA] + FieldsText(fs[1..])
  }

  /** A run of digits whose value has 64 bits. */
  predicate IsNumeral(s: bytes) {
    s != [] && (forall i :: 0 <= i < |s| ==> IsDigit(s[i])) && DigitsValue(s) < 0x1_0000_0000_0000_0000
  }

  /** Asks for the names. The solver looks at how a keyword or a scalar type is spelled only where a proof asks. */
  predicate Looked(x: int) { true }

  /** `s` spells `name` but for case. */
  ghost predicate IsWord(s: bytes, name: string) { forall x {:trigger Looked(x)} :: Looked(x) ==> Upper(s) == Ascii(name) }

  /** `s` spells a name of the scalar type `id` but for case. */
  ghost predicate IsScalarWord(s: bytes, id: ScalarId) { forall x {:trigger Looked(x)} :: Looked(x) ==> Names(Upper(s), id) }

  lemma WordIs(s: bytes, name: string)
    requires IsWord(s, name)
    ensures Upper(s) == Ascii(name)
  {
    assert Looked(0);
  }

  lemma ScalarWordIs(s: bytes, id: ScalarId)
    requires IsScalarWord(s, id)
    ensures Names(Upper(s), id)
  {
    assert Looked(0);
  }

  ghost predicate SpellingOk(s: Spelling)
    decreases s, 1
  {
    match s
    case SScalar(word, id) => IsScalarWord(word, id)
    case SDecimal(word, width, scale) => IsWord(word, "DECIMAL") && IsNumeral(width) && IsNumeral(scale)
    case SList(word, child) => IsWord(word, "LIST") && SpellingOk(child)
    case SArray(word, child, size) => IsWord(word, "ARRAY") && SpellingOk(child) && IsNumeral(size)
    case SMap(word, key, value) => IsWord(word, "MAP") && SpellingOk(key) && SpellingOk(value)
    case SStruct(word, fields) => IsWord(word, "STRUCT") && fields != [] && FieldsOk(fields)
  }

  ghost predicate FieldsOk(fs: seq<SField>)
    decreases fs, 2
  {
    fs == [] || (IsIdentifier(fs[0].name) && SpellingOk(fs[0].fieldType) && FieldsOk(fs[1..]))
  }

  /** The type a spelling stands for. */
  function Denotes(s: Spelling): LogicalType
    requires SpellingOk(s)
    decreases s, 1
  {
    match s
    case SScalar(_, id) => Scalar(id)
    case SDecimal(_, width, scale) => Decimal(DigitsValue(width) % 256, DigitsValue(scale) % 256)
    case SList(_, child) => List(Denotes(child))
    case SArray(_, child, size) => Array(Denotes(child), DigitsValue(size))
    case SMap(_, key, value) => Map(Denotes(key), Denotes(value))
    case SStruct(_, fields) => Struct(DenotesFields(fields))
  }

  function DenotesFields(fs: seq<SField>): seq<Field>
    requires FieldsOk(fs)
    decreases fs, 2
  {
    if fs == [] then [] else [Field(fs[0].name, Denotes(fs[0].fieldType))] + DenotesFields(fs[1..])
  }

  /** No ARRAY in the spelling has the size 0. */
  predicate Sized(s: Spelling)
    decreases s, 1
  {
    match s
    case SList(_, child) => Sized(child)
    case SArray(_, child, size) => Sized(child) && DigitsValue(size) > 0
    case SMap(_, key, value) => Sized(key) && Sized(value)
    case SStruct(_, fields) => FieldsSized(fields)
    case _ => true
  }

  predicate FieldsSized(fs: seq<SField>)
    decreases fs, 2
  {
    fs == [] || (Sized(fs[0].fieldType) && FieldsSized(fs[1..]))
  }

  /** How many constructors with a type argument are nested. */
  function Nesting(s: Spelling): nat
    decreases s, 1
  {
    match s
    case SList(_, child) => 1 + Nesting(child)
    case SArray(_, child, _) => 1 + Nesting(child)
    case SMap(_, key, value) => 1 + Max(Nesting(key), Nesting(value))
    case SStruct(_, fields) => 1 + FieldsNesting(fields)
    case _ => 0
  }

  function FieldsNesting(fs: seq<SField>): nat
    decreases fs, 2
  {
    if fs == [] then 0 else Max(Nesting(fs[0].fieldType), FieldsNesting(fs[1..]))
  }

  function Max(a: nat, b: nat): nat { if a > b then a else b }

  // ---- words ----

  predicate IsWordByte(c: byte) { IsAlpha(c) || IsDigit(c) || c == UNDERSCORE }

  /** Nothing for the normalizer to do: single spaces, each between two bytes that are no bracket or comma. */
  predicate NormalAt(s: bytes, i: nat)
    requires i < |s|
  {
    IsBlank(s[i]) ==>
      s[i] == SPACE && 0 < i < |s| - 1 && !IsBracketOrComma(s[i - 1]) && !IsBracketOrComma(s[i + 1]) && !IsBlank(s[i + 1])
  }

  predicate Normal(s: bytes) { forall i :: 0 <= i < |s| ==> NormalAt(s, i) }

  /** A word of letters, digits and underscores, possibly several with single spaces between. */
  predicate Plain(s: bytes) {
    s != [] && Normal(s) && forall i :: 0 <= i < |s| ==> IsWordByte(s[i]) || s[i] == SPACE
  }

  /** The scalar names are plain words; here as literals. */
  predicate PlainLiteralAt(s: string, i: nat)
    requires i < |s|
  {
    var c := s[i] as int;
    65 <= c <= 90 || c == 95 || (c == 32 && 0 < i < |s| - 1 && s[i + 1] as int != 32)
  }

  predicate PlainLiteral(s: string) { s != "" && forall i :: 0 <= i < |s| ==> PlainLiteralAt(s, i) }

  lemma LiteralByte(s: bytes, name: string, i: nat)
    requires PlainLiteral(name) && Upper(s) == Ascii(name) && i < |s|
    ensures |s| == |name| && (IsWordByte(s[i]) || s[i] == SPACE)
    ensures s[i] == SPACE <==> name[i] as int == 32
  {
    assert PlainLiteralAt(name, i);
    assert Upper(s)[i] == Ascii(name)[i];
  }

  lemma LiteralIsPlain(s: bytes, name: string)
    requires PlainLiteral(name) && Upper(s) == Ascii(name)
    ensures Plain(s)
  {
    forall i | 0 <= i < |s|
      ensures IsWordByte(s[i]) || s[i] == SPACE
      ensures NormalAt(s, i)
    {
      LiteralByte(s, name, i);
      if IsBlank(s[i]) {
        assert PlainLiteralAt(name, i);
        LiteralByte(s, name, i - 1);
        LiteralByte(s, name, i + 1);
      }
    }
  }

  lemma IntegerNamesArePlain()
    ensures PlainLiteral("TINYINT") && PlainLiteral("SMALLINT") && PlainLiteral("INTEGER")
    ensures PlainLiteral("INT") && PlainLiteral("BIGINT") && PlainLiteral("HUGEINT")
    ensures PlainLiteral("UTINYINT") && PlainLiteral("USMALLINT") && PlainLiteral("UINTEGER")
    ensures PlainLiteral("UBIGINT") && PlainLiteral("UHUGEINT")
  {
  }

  lemma OtherNamesArePlain()
    ensures PlainLiteral("BOOLEAN") && PlainLiteral("FLOAT") && PlainLiteral("DOUBLE")
    ensures PlainLiteral("VARCHAR") && PlainLiteral("STRING") && PlainLiteral("UUID")
    ensures PlainLiteral("DATE") && PlainLiteral("TIME") && PlainLiteral("TIMETZ")
    ensures PlainLiteral("INTERVAL") && PlainLiteral("BLOB") && PlainLiteral("BIT")
  {
  }

  lemma TimeNamesArePlain()
    ensures PlainLiteral("TIMESTAMP") && PlainLiteral("TIMESTAMP_S") && PlainLiteral("TIMESTAMP_MS")
    ensures PlainLiteral("TIMESTAMP_NS") && PlainLiteral("TIMESTAMPTZ")
  {
  }

  lemma LongNamesArePlain()
    ensures PlainLiteral("TIME WITH TIME ZONE") && PlainLiteral("TIMESTAMP WITH TIME ZONE")
  {
  }

  lemma ScalarIsPlain(word: bytes, id: ScalarId)
    requires Names(Upper(word), id)
    ensures Plain(word)
  {
    NamesArePlain(id);
    LiteralIsPlain(word, if Upper(word) == Ascii(ScalarName(id)) then ScalarName(id) else OtherName(id).value);
  }

  lemma NamesArePlain(id: ScalarId)
    ensures PlainLiteral(ScalarName(id)) && (OtherName(id).Some? ==> PlainLiteral(OtherName(id).value))
  {
    IntegerNamesArePlain();
    OtherNamesArePlain();
    TimeNamesArePlain();
    LongNamesArePlain();
  }

  // ---- the normalizer leaves a spelling alone ----

  lemma NormalConcat(a: bytes, b: bytes)
    requires Normal(a) && Normal(b)
    ensures Normal(a + b)
  {
    var s := a + b;
    forall i | 0 <= i < |s| ensures NormalAt(s, i) {
      if i < |a| { assert NormalAt(a, i); } else { assert NormalAt(b, i - |a|); }
    }
  }

  /** A normal text that starts with a letter, digit or underscore. */
  predicate Shape(s: bytes) { Normal(s) && s != [] && IsWordByte(s[0]) }

  lemma WrapShape(word: bytes, open: byte, inner: bytes, close: byte)
    requires Shape(word) && Normal(inner) && IsBracketOrComma(open) && IsBracketOrComma(close)
    ensures Shape(word + [open] + inner + [close])
  {
    NormalConcat(word, [open]);
    NormalConcat(word + [open], inner);
    NormalConcat(word + [open] + inner, [close]);
  }

  lemma CommaNormal(a: bytes, b: bytes)
    requires Normal(a) && Normal(b)
    ensures Normal(a + [COMMA] + b)
  {
    NormalConcat(a, [COMMA]);
    NormalConcat(a + [COMMA], b);
  }

  lemma WordShape(word: bytes, name: string)
    requires IsWord(word, name) && PlainLiteral(name)
    ensures Shape(word) && Plain(word)
  {
    WordIs(word, name);
    LiteralIsPlain(word, name);
    assert NormalAt(word, 0);
  }

  lemma KeywordsArePlain()
    ensures PlainLiteral("LIST") && PlainLiteral("ARRAY") && PlainLiteral("MAP")
    ensures PlainLiteral("STRUCT") && PlainLiteral("DECIMAL")
  {
  }

  lemma {:induction false} TextShape(s: Spelling)
    requires SpellingOk(s)
    ensures Shape(TypeText(s))
    decreases s, 1
  {
    KeywordsArePlain();
    match s
    case SScalar(word, id) =>
      ScalarWordIs(word, id);
      ScalarIsPlain(word, id);
      assert NormalAt(word, 0);
    case SDecimal(word, width, scale) =>
      WordShape(word, "DECIMAL");
      CommaNormal(width, scale);
      WrapShape(word, LPAREN, width + [COMMA] + scale, RPAREN);
    case SList(word, child) =>
      WordShape(word, "LIST");
      TextShape(child);
      WrapShape(word, LESS, TypeText(child), GREATER);
    case SArray(word, child, size) =>
      WordShape(word, "ARRAY");
      TextShape(child);
      CommaNormal(TypeText(child), size);
      WrapShape(word, LESS, TypeText(child) + [COMMA] + size, GREATER);
    case SMap(word, key, value) =>
      WordShape(word, "MAP");
      TextShape(key);
      TextShape(value);
      CommaNormal(TypeText(key), TypeText(value));
      WrapShape(word, LESS, TypeText(key) + [COMMA] + TypeText(value), GREATER);
    case SStruct(word, fields) =>
      WordShape(word, "STRUCT");
      FieldsShape(fields);
      WrapShape(word, LPAREN, FieldsText(fields), RPAREN);
  }

  lemma FieldJoin(name: bytes, t: bytes)
    requires IsIdentifier(name) && Shape(t)
    ensures Shape(name + [SPACE] + t)
  {
    var s := name + [SPACE] + t;
    forall i | 0 <= i < |s| ensures NormalAt(s, i) {
      if i > |name| { assert NormalAt(t, i - |name| - 1); }
    }
  }

  lemma {:induction false} FieldsShape(fs: seq<SField>)
    requires FieldsOk(fs)
    ensures Normal(FieldsText(fs)) && (fs != [] ==> Shape(FieldsText(fs)))
    decreases fs, 2
  {
    if fs != [] {
      TextShape(fs[0].fieldType);
      FieldJoin(fs[0].name, TypeText(fs[0].fieldType));
      FieldsShape(fs[1..]);
      CommaNormal(FieldText(fs[0]), FieldsText(fs[1..]));
    }
  }

  lemma {:induction false} NormalizedIsIdentity(s: bytes, i: nat, previous: byte)
    requires Normal(s) && i <= |s| && (i > 0 ==> previous == s[i - 1])
    ensures Normalized(s[i..], previous) == s[i..]
    decreases |s| - i
  {
    if i < |s| {
      var rest := s[i..];
      assert rest[1..] == s[i + 1..] && rest == [s[i]] + s[i + 1..];
      NormalizedIsIdentity(s, i + 1, s[i]);
      assert NormalAt(s, i);
      if IsBlank(s[i]) {
        assert TrimLeft(s[i + 1..]) == s[i + 1..];
      }
    }
  }

  lemma ShapeIsNormal(s: bytes)
    requires Shape(s)
    ensures Normalize(s) == s
    ensures Trim(s) == s
  {
    NormalizedIsIdentity(s, 0, COMMA);
    assert s[0..] == s;
    assert NormalAt(s, |s| - 1);
  }

  /** A spelling survives trimming and is not empty. */
  lemma TextTrims(s: Spelling)
    requires SpellingOk(s)
    ensures Trim(TypeText(s)) == TypeText(s) != []
  {
    TextShape(s);
    ShapeIsNormal(TypeText(s));
  }

  lemma NumeralTrims(s: bytes)
    requires IsNumeral(s)
    ensures Trim(s) == s && ParseUnsigned(s) == Some(DigitsValue(s)) && NoMarks(s)
  {
    assert IsDigit(s[0]) && IsDigit(s[|s| - 1]);
    AllDigits(s, 0);
    assert s[..|s|] == s;
  }

  /** A numeral under a minus sign is negated modulo 2^64, as std::stoul does. */
  lemma {:induction false} NegatedNumeral(s: bytes)
    requires IsNumeral(s)
    ensures ParseUnsigned(Ascii("-") + s)
         == Some(if DigitsValue(s) == 0 then 0 else 0x1_0000_0000_0000_0000 - DigitsValue(s))
  {
    var t := [MINUS] + s;
    assert Ascii("-") == [MINUS];
    assert TrimLeft(t) == t && t[1..] == s;
    AllDigits(s, 0);
    assert s[..|s|] == s;
  }

  /** A run of digits that needs more than 64 bits is refused, whatever its sign. */
  lemma {:induction false} LargeNumeral(s: bytes, negative: bool)
    requires s != [] && (forall i :: 0 <= i < |s| ==> IsDigit(s[i])) && DigitsValue(s) >= 0x1_0000_0000_0000_0000
    ensures ParseUnsigned((if negative then Ascii("-") else []) + s) == None
  {
    var t := if negative then [MINUS] + s else s;
    assert Ascii("-") == [MINUS] && (if negative then Ascii("-") else []) + s == t;
    assert TrimLeft(t) == t && (if negative then t[1..] else t) == s;
    AllDigits(s, 0);
    assert s[..|s|] == s;
  }

  lemma {:induction false} AllDigits(s: bytes, i: nat)
    requires i <= |s| && forall k :: 0 <= k < |s| ==> IsDigit(s[k])
    ensures DigitRun(s, i) == |s| - i
    decreases |s| - i
  {
    if i < |s| { AllDigits(s, i + 1); }
  }

  // ---- the bracket and comma scans pass over a whole spelling ----

  predicate NoMarks(s: bytes) { forall i :: 0 <= i < |s| ==> !IsBracketOrComma(s[i]) }

  lemma {:induction false} MatchPlain(s: bytes, i: nat, t: bytes, depth: int, close: byte)
    requires At(s, i, t) && forall k :: 0 <= k < |t| ==> !IsBracketOrComma(t[k]) || t[k] == COMMA
    ensures MatchAt(s, i, depth, close) == MatchAt(s, i + |t|, depth, close)
    decreases |t|
  {
    if t != [] {
      AtByte(s, i, t, 0);
      assert t == [t[0]] + t[1..];
      AtConcat(s, i, [t[0]], t[1..]);
      MatchPlain(s, i + 1, t[1..], depth, close);
    }
  }

  lemma {:induction false} SplitPlain(s: bytes, i: nat, t: bytes, start: nat, angle: int, paren: int)
    requires start <= i && At(s, i, t) && NoMarks(t)
    ensures CommasAt(s, i, start, angle, paren) == CommasAt(s, i + |t|, start, angle, paren)
    decreases |t|
  {
    if t != [] {
      AtByte(s, i, t, 0);
      assert t == [t[0]] + t[1..];
      AtConcat(s, i, [t[0]], t[1..]);
      SplitPlain(s, i + 1, t[1..], start, angle, paren);
    }
  }

  /** The counters of both scans, as they stand at one position. */
  datatype Scan = Scan(depth: int, close: byte, start: nat, angle: int, paren: int)

  predicate Counting(k: Scan) { k.depth >= 1 && k.angle >= 0 && k.paren >= 0 }

  /** Inside brackets a comma does not split. */
  predicate Inside(k: Scan) { k.angle + k.paren > 0 }

  function Enter(k: Scan, open: byte): Scan {
    if open == LESS then k.(depth := k.depth + 1, angle := k.angle + 1)
    else k.(depth := k.depth + 1, paren := k.paren + 1)
  }

  /** Both scans go on behind `j` as they would at `i`: the bytes between do not affect them. */
  predicate Passes(s: bytes, i: nat, j: nat, k: Scan) {
    k.start <= i <= j <= |s|
    && MatchAt(s, i, k.depth, k.close) == MatchAt(s, j, k.depth, k.close)
    && CommasAt(s, i, k.start, k.angle, k.paren) == CommasAt(s, j, k.start, k.angle, k.paren)
  }

  predicate Brackets(open: byte, close: byte) {
    (open == LESS && close == GREATER) || (open == LPAREN && close == RPAREN)
  }

  lemma PlainPasses(s: bytes, i: nat, t: bytes, k: Scan)
    requires At(s, i, t) && NoMarks(t) && k.start <= i
    ensures Passes(s, i, i + |t|, k)
  {
    MatchPlain(s, i, t, k.depth, k.close);
    SplitPlain(s, i, t, k.start, k.angle, k.paren);
  }

  /** Where the parts of a bracketed text stand. */
  lemma WrapParts(s: bytes, i: nat, word: bytes, open: byte, inner: bytes, close: byte)
    requires At(s, i, word + [open] + inner + [close])
    ensures At(s, i, word) && At(s, i + |word| + 1, inner) && i + |word| + |inner| + 2 <= |s|
    ensures s[i + |word|] == open && s[i + |word| + 1 + |inner|] == close
  {
    AtConcat4(s, i, word, [open], inner, [close]);
    AtOne(s, i + |word|, open);
    AtOne(s, i + |word| + 1 + |inner|, close);
  }

  lemma CommaParts(s: bytes, i: nat, a: bytes, b: bytes)
    requires At(s, i, a + [COMMA] + b)
    ensures At(s, i, a) && At(s, i + |a| + 1, b) && i + |a| + 1 + |b| <= |s| && s[i + |a|] == COMMA
  {
    AtConcat3(s, i, a, [COMMA], b);
    AtOne(s, i + |a|, COMMA);
  }

  /** Where the parts of a bracketed pair stand; `p` is behind the bracket, `q` behind the comma. */
  lemma PairParts(s: bytes, i: nat, word: bytes, open: byte, a: bytes, b: bytes, close: byte) returns (p: nat, q: nat, end: nat)
    requires At(s, i, word + [open] + (a + [COMMA] + b) + [close])
    ensures p == i + |word| + 1 && q == p + |a| + 1 && end == q + |b| < |s|
    ensures At(s, i, word) && At(s, p, a) && At(s, q, b) && At(s, p, a + [COMMA] + b)
    ensures s[p - 1] == open && s[q - 1] == COMMA && s[end] == close
  {
    WrapParts(s, i, word, open, a + [COMMA] + b, close);
    p := i + |word| + 1;
    CommaParts(s, p, a, b);
    q, end := p + |a| + 1, p + |a| + 1 + |b|;
  }

  /** The brackets are balanced when what is inside them is. */
  lemma WrapPasses(s: bytes, i: nat, word: bytes, inner: bytes, open: byte, close: byte, k: Scan)
    requires Brackets(open, close) && NoMarks(word) && Counting(k) && k.start <= i
    requires At(s, i, word) && i + |word| + |inner| + 2 <= |s|
    requires s[i + |word|] == open && s[i + |word| + 1 + |inner|] == close
    requires Passes(s, i + |word| + 1, i + |word| + 1 + |inner|, Enter(k, open))
    ensures Passes(s, i, i + |word| + |inner| + 2, k)
  {
    PlainPasses(s, i, word, k);
  }

  lemma CommaBetween(s: bytes, i: nat, j: nat, end: nat, k: Scan)
    requires Counting(k) && Inside(k) && i < j <= end <= |s| && s[j - 1] == COMMA
    requires Passes(s, i, j - 1, k) && Passes(s, j, end, k)
    ensures Passes(s, i, end, k)
  {
  }

  lemma WordHasNoMarks(word: bytes, name: string)
    requires IsWord(word, name) && PlainLiteral(name)
    ensures NoMarks(word)
  {
    WordIs(word, name);
    LiteralIsPlain(word, name);
  }

  lemma {:induction false} TextPasses(s: bytes, i: nat, t: Spelling, k: Scan)
    requires SpellingOk(t) && At(s, i, TypeText(t)) && Counting(k) && k.start <= i
    ensures Passes(s, i, i + |TypeText(t)|, k)
    decreases t, 4
  {
    match t
    case SScalar(word, id) =>
      ScalarWordIs(word, id);
      ScalarIsPlain(word, id);
      PlainPasses(s, i, word, k);
    case SDecimal(word, width, scale) => DecimalPasses(s, i, word, width, scale, k);
    case SList(word, child) => ListPasses(s, i, word, child, k);
    case SArray(word, child, size) => ArrayPasses(s, i, word, child, size, k);
    case SMap(word, key, value) => MapPasses(s, i, word, key, value, k);
    case SStruct(word, fields) => StructPasses(s, i, word, fields, k);
  }

  lemma DecimalPasses(s: bytes, i: nat, word: bytes, width: bytes, scale: bytes, k: Scan)
    requires SpellingOk(SDecimal(word, width, scale)) && At(s, i, TypeText(SDecimal(word, width, scale)))
    requires Counting(k) && k.start <= i
    ensures Passes(s, i, i + |TypeText(SDecimal(word, width, scale))|, k)
  {
    KeywordsArePlain();
    WordHasNoMarks(word, "DECIMAL");
    var inner := width + [COMMA] + scale;
    var p := i + |word| + 1;
    WrapParts(s, i, word, LPAREN, inner, RPAREN);
    CommaParts(s, p, width, scale);
    PlainPasses(s, p, width, Enter(k, LPAREN));
    PlainPasses(s, p + |width| + 1, scale, Enter(k, LPAREN));
    CommaBetween(s, p, p + |width| + 1, p + |inner|, Enter(k, LPAREN));
    WrapPasses(s, i, word, inner, LPAREN, RPAREN, k);
  }

  lemma {:induction false} ListPasses(s: bytes, i: nat, word: bytes, child: Spelling, k: Scan)
    requires SpellingOk(SList(word, child)) && At(s, i, TypeText(SList(word, child))) && Counting(k) && k.start <= i
    ensures Passes(s, i, i + |TypeText(SList(word, child))|, k)
    decreases child, 5
  {
    KeywordsArePlain();
    WordHasNoMarks(word, "LIST");
    WrapParts(s, i, word, LESS, TypeText(child), GREATER);
    TextPasses(s, i + |word| + 1, child, Enter(k, LESS));
    WrapPasses(s, i, word, TypeText(child), LESS, GREATER, k);
  }

  lemma {:induction false} ArrayPasses(s: bytes, i: nat, word: bytes, child: Spelling, size: bytes, k: Scan)
    requires SpellingOk(SArray(word, child, size)) && At(s, i, TypeText(SArray(word, child, size)))
    requires Counting(k) && k.start <= i
    ensures Passes(s, i, i + |TypeText(SArray(word, child, size))|, k)
    decreases child, 6
  {
    KeywordsArePlain();
    WordHasNoMarks(word, "ARRAY");
    var ct := TypeText(child);
    var p, q, end := PairParts(s, i, word, LESS, ct, size, GREATER);
    TextAndNumberPass(s, p, child, size, Enter(k, LESS));
    WrapPasses(s, i, word, ct + [COMMA] + size, LESS, GREATER, k);
  }

  lemma {:induction false} TextAndNumberPass(s: bytes, p: nat, a: Spelling, size: bytes, k: Scan)
    requires SpellingOk(a) && IsNumeral(size) && At(s, p, TypeText(a)) && At(s, p + |TypeText(a)| + 1, size)
    requires s[p + |TypeText(a)|] == COMMA && Counting(k) && Inside(k) && k.start <= p
    ensures Passes(s, p, p + |TypeText(a)| + 1 + |size|, k)
    decreases a, 5
  {
    var q := p + |TypeText(a)| + 1;
    TextPasses(s, p, a, k);
    PlainPasses(s, q, size, k);
    CommaBetween(s, p, q, q + |size|, k);
  }

  lemma {:induction false} TwoTextsPass(s: bytes, p: nat, word: bytes, a: Spelling, b: Spelling, k: Scan)
    requires SpellingOk(a) && SpellingOk(b) && At(s, p, TypeText(a)) && At(s, p + |TypeText(a)| + 1, TypeText(b))
    requires s[p + |TypeText(a)|] == COMMA && Counting(k) && Inside(k) && k.start <= p
    ensures Passes(s, p, p + |TypeText(a)| + 1 + |TypeText(b)|, k)
    decreases SMap(word, a, b), 1
  {
    var ta, tb := TypeText(a), TypeText(b);
    var q := p + |ta| + 1;
    TextPasses(s, p, a, k);
    TextPasses(s, q, b, k);
    CommaBetween(s, p, q, q + |tb|, k);
  }

  lemma {:induction false} MapPasses(s: bytes, i: nat, word: bytes, key: Spelling, value: Spelling, k: Scan)
    requires SpellingOk(SMap(word, key, value)) && At(s, i, TypeText(SMap(word, key, value)))
    requires Counting(k) && k.start <= i
    ensures Passes(s, i, i + |TypeText(SMap(word, key, value))|, k)
    decreases SMap(word, key, value), 3
  {
    MapWord(word);
    PairPasses(s, i, word, key, value, k);
  }

  lemma MapWord(word: bytes)
    requires IsWord(word, "MAP")
    ensures NoMarks(word)
  {
    KeywordsArePlain();
    WordHasNoMarks(word, "MAP");
  }

  lemma {:induction false} PairPasses(s: bytes, i: nat, word: bytes, key: Spelling, value: Spelling, k: Scan)
    requires NoMarks(word) && SpellingOk(key) && SpellingOk(value) && Counting(k) && k.start <= i
    requires At(s, i, word + [LESS] + (TypeText(key) + [COMMA] + TypeText(value)) + [GREATER])
    ensures Passes(s, i, i + |word| + |TypeText(key) + [COMMA] + TypeText(value)| + 2, k)
    decreases SMap(word, key, value), 2
  {
    var kt, vt := TypeText(key), TypeText(value);
    var p, q, end := PairParts(s, i, word, LESS, kt, vt, GREATER);
    TwoTextsPass(s, p, word, key, value, Enter(k, LESS));
    WrapPasses(s, i, word, kt + [COMMA] + vt, LESS, GREATER, k);
  }

  lemma {:induction false} StructPasses(s: bytes, i: nat, word: bytes, fields: seq<SField>, k: Scan)
    requires SpellingOk(SStruct(word, fields)) && At(s, i, TypeText(SStruct(word, fields)))
    requires Counting(k) && k.start <= i
    ensures Passes(s, i, i + |TypeText(SStruct(word, fields))|, k)
    decreases fields, 6
  {
    KeywordsArePlain();
    WordHasNoMarks(word, "STRUCT");
    WrapParts(s, i, word, LPAREN, FieldsText(fields), RPAREN);
    FieldsPass(s, i + |word| + 1, fields, Enter(k, LPAREN));
    WrapPasses(s, i, word, FieldsText(fields), LPAREN, RPAREN, k);
  }

  lemma {:induction false} FieldPasses(s: bytes, i: nat, f: SField, k: Scan)
    requires IsIdentifier(f.name) && SpellingOk(f.fieldType) && At(s, i, FieldText(f)) && Counting(k) && k.start <= i
    ensures Passes(s, i, i + |FieldText(f)|, k)
    decreases f, 5
  {
    AtConcat3(s, i, f.name, [SPACE], TypeText(f.fieldType));
    PlainPasses(s, i, f.name, k);
    PlainPasses(s, i + |f.name|, [SPACE], k);
    TextPasses(s, i + |f.name| + 1, f.fieldType, k);
  }

  lemma {:induction false} FieldsPass(s: bytes, i: nat, fs: seq<SField>, k: Scan)
    requires FieldsOk(fs) && At(s, i, FieldsText(fs)) && Counting(k) && Inside(k) && k.start <= i
    ensures Passes(s, i, i + |FieldsText(fs)|, k)
    decreases fs, 5
  {
    if |fs| == 1 {
      FieldPasses(s, i, fs[0], k);
    } else if fs != [] {
      CommaParts(s, i, FieldText(fs[0]), FieldsText(fs[1..]));
      FieldPasses(s, i, fs[0], k);
      FieldsPass(s, i + |FieldText(fs[0])| + 1, fs[1..], k);
      CommaBetween(s, i, i + |FieldText(fs[0])| + 1, i + |FieldsText(fs)|, k);
    }
  }

  // ---- parsing a spelling ----

  lemma UpperWord(word: bytes, name: string, open: byte, rest: bytes, keyword: string)
    requires IsWord(word, name) && IsBracketOrComma(open)
    requires Ascii(keyword) == Ascii(name) + [open]
    ensures StartsWith(Upper(word + [open] + rest), Ascii(keyword))
  {
    var u := Upper(word + [open] + rest);
    WordIs(word, name);
    forall i | 0 <= i < |keyword| ensures u[i] == Ascii(keyword)[i] {
      if i < |word| { assert Upper(word)[i] == Ascii(name)[i]; }
    }
    assert u[..|keyword|] == Ascii(keyword);
  }

  lemma Keywords()
    ensures Ascii("LIST<") == Ascii("LIST") + [LESS] && Ascii("ARRAY<") == Ascii("ARRAY") + [LESS]
    ensures Ascii("MAP<") == Ascii("MAP") + [LESS] && Ascii("STRUCT(") == Ascii("STRUCT") + [LPAREN]
    ensures Ascii("DECIMAL(") == Ascii("DECIMAL") + [LPAREN]
  {
  }

  /** A keyword is recognized by its first byte alone. */
  lemma OtherKeyword(s: bytes, keyword: string)
    requires keyword != "" && s != [] && UpperByte(s[0]) != keyword[0] as int % 256
    ensures !StartsWith(Upper(s), Ascii(keyword))
  {
    assert Upper(s)[0] != Ascii(keyword)[0];
  }

  lemma NoKeyword(s: bytes, name: string, open: byte, keyword: string)
    requires NoMarks(s) && IsBracketOrComma(open) && Ascii(keyword) == Ascii(name) + [open]
    ensures !StartsWith(Upper(s), Ascii(keyword))
  {
    assert Ascii(keyword)[|name|] == open;
    assert |name| < |s| ==> Upper(s)[|name|] != open;
  }

  /** The scan of a bracket's own text, from behind the bracket. */
  function BracketScan(close: byte): Scan { Scan(1, close, 0, 1, 0) }

  lemma InnerText(s: bytes, word: bytes, inner: bytes, open: byte, close: byte)
    requires Brackets(open, close) && |s| == |word| + |inner| + 2 && s[|word|] == open && s[|s| - 1] == close
    requires At(s, |word| + 1, inner) && Passes(s, |word| + 1, |word| + 1 + |inner|, BracketScan(close))
    ensures BracketedArgs(s, |word|, open, close) == Some(inner)
  {
    var end := |s| - 1;
    assert MatchAt(s, |word|, 0, close) == MatchAt(s, |word| + 1, 1, close) == MatchAt(s, end, 1, close) == Some(end);
    AtSlice(s, |word| + 1, inner);
  }

  /** The scan of a comma-separated list from the start of one of its parts. */
  function ListScan(start: nat): Scan { Scan(1, GREATER, start, 0, 0) }

  /** `inner` is `a`, a comma and `b`. */
  predicate PairAt(inner: bytes, a: bytes, b: bytes) {
    |inner| == |a| + 1 + |b| && At(inner, 0, a) && inner[|a|] == COMMA && At(inner, |a| + 1, b)
  }

  lemma PairStands(a: bytes, b: bytes)
    ensures PairAt(a + [COMMA] + b, a, b)
  {
    AtSlice(a + [COMMA] + b, 0, a + [COMMA] + b);
    CommaParts(a + [COMMA] + b, 0, a, b);
  }

  function FieldTexts(fs: seq<SField>): seq<bytes> {
    if fs == [] then [] else [FieldText(fs[0])] + FieldTexts(fs[1..])
  }

  lemma FieldTrims(f: SField)
    requires IsIdentifier(f.name) && SpellingOk(f.fieldType)
    ensures Trim(FieldText(f)) == FieldText(f) && FieldText(f) != []
  {
    TextShape(f.fieldType);
    FieldJoin(f.name, TypeText(f.fieldType));
    ShapeIsNormal(FieldText(f));
  }

  /** The trimmed parts of a list whose current part starts at `i`. */
  function Parts(s: bytes, i: nat): seq<bytes>
    requires i <= |s|
  {
    Cut(s, CommasAt(s, i, i, 0, 0))
  }

  lemma SplitLast(s: bytes, i: nat, part: bytes)
    requires At(s, i, part) && i + |part| == |s| && CommasAt(s, i, i, 0, 0) == CommasAt(s, |s|, i, 0, 0)
    requires Trim(part) == part != []
    ensures Parts(s, i) == [part]
  {
    AtSlice(s, i, part);
    CutFirst(s, i, |s|, []);
    assert [Span(i, |s|)] + [] == [Span(i, |s|)] && [part] + [] == [part];
  }

  lemma SplitHead(s: bytes, i: nat, part: bytes)
    requires At(s, i, part) && i + |part| < |s| && s[i + |part|] == COMMA
    requires CommasAt(s, i, i, 0, 0) == CommasAt(s, i + |part|, i, 0, 0) && Trim(part) == part
    ensures Parts(s, i) == [part] + Parts(s, i + |part| + 1)
  {
    var j := i + |part|;
    AtSlice(s, i, part);
    CutFirst(s, i, j, CommasAt(s, j + 1, j + 1, 0, 0));
  }

  /** A part that a comma follows, and a part that ends the text. */
  lemma TextHead(s: bytes, i: nat, t: Spelling)
    requires SpellingOk(t) && At(s, i, TypeText(t)) && i + |TypeText(t)| < |s| && s[i + |TypeText(t)|] == COMMA
    ensures Parts(s, i) == [TypeText(t)] + Parts(s, i + |TypeText(t)| + 1)
  {
    TextTrims(t);
    TextPasses(s, i, t, ListScan(i));
    SplitHead(s, i, TypeText(t));
  }

  lemma TextLast(s: bytes, i: nat, t: Spelling)
    requires SpellingOk(t) && At(s, i, TypeText(t)) && i + |TypeText(t)| == |s|
    ensures Parts(s, i) == [TypeText(t)]
  {
    TextTrims(t);
    TextPasses(s, i, t, ListScan(i));
    SplitLast(s, i, TypeText(t));
  }

  lemma NumeralLast(s: bytes, i: nat, t: bytes)
    requires IsNumeral(t) && At(s, i, t) && i + |t| == |s|
    ensures Parts(s, i) == [t]
  {
    NumeralTrims(t);
    PlainPasses(s, i, t, ListScan(i));
    SplitLast(s, i, t);
  }

  lemma FieldHead(s: bytes, i: nat, f: SField)
    requires IsIdentifier(f.name) && SpellingOk(f.fieldType) && At(s, i, FieldText(f))
    requires i + |FieldText(f)| < |s| && s[i + |FieldText(f)|] == COMMA
    ensures Parts(s, i) == [FieldText(f)] + Parts(s, i + |FieldText(f)| + 1)
  {
    FieldTrims(f);
    FieldPasses(s, i, f, ListScan(i));
    SplitHead(s, i, FieldText(f));
  }

  lemma FieldLast(s: bytes, i: nat, f: SField)
    requires IsIdentifier(f.name) && SpellingOk(f.fieldType) && At(s, i, FieldText(f)) && i + |FieldText(f)| == |s|
    ensures Parts(s, i) == [FieldText(f)]
  {
    FieldTrims(f);
    FieldPasses(s, i, f, ListScan(i));
    SplitLast(s, i, FieldText(f));
  }

  lemma {:induction false} SplitFields(s: bytes, i: nat, fs: seq<SField>)
    requires FieldsOk(fs) && fs != [] && At(s, i, FieldsText(fs)) && i + |FieldsText(fs)| == |s|
    ensures Parts(s, i) == FieldTexts(fs)
    decreases |fs|
  {
    var f := FieldText(fs[0]);
    if |fs| == 1 {
      FieldLast(s, i, fs[0]);
      assert FieldTexts(fs[1..]) == [];
    } else {
      CommaParts(s, i, f, FieldsText(fs[1..]));
      FieldHead(s, i, fs[0]);
      SplitFields(s, i + |f| + 1, fs[1..]);
    }
  }

  lemma {:induction false} GapBehindName(s: bytes, i: nat, name: bytes)
    requires IsIdentifier(name) && i <= |name| < |s| && s[..|name|] == name && s[|name|] == SPACE
    ensures FirstGap(s, i) == Some(|name|)
    decreases |name| - i
  {
    if i < |name| {
      assert s[i] == name[i];
      GapBehindName(s, i + 1, name);
    }
  }

  lemma IdentifierTrims(name: bytes)
    requires IsIdentifier(name)
    ensures Trim(name) == name
  {
    assert !IsBlank(name[0]) && !IsBlank(name[|name| - 1]);
  }

  lemma UpperNumeral(s: bytes)
    requires forall i :: 0 <= i < |s| ==> IsDigit(s[i])
    ensures Upper(s) == s
  {
  }

  lemma {:induction false} IndexSkips(s: bytes, c: byte, i: nat, j: nat)
    requires i <= j < |s| && s[j] == c && forall k :: i <= k < j ==> s[k] != c
    ensures IndexOf(s, c, i) == Some(j)
    decreases j - i
  {
    if i < j { IndexSkips(s, c, i + 1, j); }
  }

  lemma DecimalParses(word: bytes, width: bytes, scale: bytes)
    requires NoMarks(word) && IsNumeral(width) && IsNumeral(scale)
    ensures ParseDecimal(word + [LPAREN] + (width + [COMMA] + scale) + [RPAREN])
         == Some(Decimal(DigitsValue(width) % 256, DigitsValue(scale) % 256))
  {
    var s := word + [LPAREN] + (width + [COMMA] + scale) + [RPAREN];
    WrapParts(s, 0, word, LPAREN, width + [COMMA] + scale, RPAREN);
    CommaParts(s, |word| + 1, width, scale);
    NumeralTrims(width);
    NumeralTrims(scale);
    DecimalAt(s, word, width, scale);
  }

  lemma DecimalAt(s: bytes, word: bytes, width: bytes, scale: bytes)
    requires |s| == |word| + |width| + |scale| + 3 && At(s, 0, word) && NoMarks(word) && NoMarks(width) && NoMarks(scale)
    requires s[|word|] == LPAREN && s[|word| + 1 + |width|] == COMMA && s[|s| - 1] == RPAREN
    requires At(s, |word| + 1, width) && At(s, |word| + |width| + 2, scale)
    requires ParseUnsigned(width).Some? && ParseUnsigned(scale).Some?
    ensures ParseDecimal(s) == Some(Decimal(ParseUnsigned(width).value % 256, ParseUnsigned(scale).value % 256))
  {
    Skips(s, word, LPAREN, 0);
    Skips(s, width, COMMA, |word| + 1);
    Skips(s, scale, RPAREN, |word| + |width| + 2);
    AtSlice(s, |word| + 1, width);
    AtSlice(s, |word| + |width| + 2, scale);
    DecimalBranch(s, |word|, |word| + 1 + |width|, |s| - 1, ParseUnsigned(width).value, ParseUnsigned(scale).value);
  }

  lemma {:induction false} DecimalBranch(s: bytes, l: nat, comma: nat, r: nat, width: nat, scale: nat)
    requires IndexOf(s, LPAREN, 0) == Some(l) && IndexOf(s, COMMA, l + 1) == Some(comma)
    requires IndexOf(s, RPAREN, comma + 1) == Some(r)
    requires ParseUnsigned(s[l + 1..comma]) == Some(width) && ParseUnsigned(s[comma + 1..r]) == Some(scale)
    ensures ParseDecimal(s) == Some(Decimal(width % 256, scale % 256))
  {
  }

  lemma Skips(s: bytes, t: bytes, c: byte, i: nat)
    requires At(s, i, t) && NoMarks(t) && IsBracketOrComma(c) && i + |t| < |s| && s[i + |t|] == c
    ensures IndexOf(s, c, i) == Some(i + |t|)
  {
    forall k | i <= k < i + |t| ensures s[k] != c { AtByte(s, i, t, k - i); }
    IndexSkips(s, c, i, i + |t|);
  }

  lemma DecimalSpelling(word: bytes, width: bytes, scale: bytes)
    requires IsWord(word, "DECIMAL") && IsNumeral(width) && IsNumeral(scale)
    ensures ParseSimple(TypeText(SDecimal(word, width, scale)))
         == Some(Decimal(DigitsValue(width) % 256, DigitsValue(scale) % 256))
  {
    var s := word + [LPAREN] + (width + [COMMA] + scale) + [RPAREN];
    var u := Upper(word) + [LPAREN] + (width + [COMMA] + scale) + [RPAREN];
    DecimalUpper(word, width, scale);
    KeywordsArePlain();
    Keywords();
    WordHasNoMarks(word, "DECIMAL");
    WordIs(word, "DECIMAL");
    assert NoMarks(Upper(word));
    UpperShape(u);
    BracketIsNoScalar(u);
    assert u[..8] == Ascii("DECIMAL(");
    DecimalParses(Upper(word), width, scale);
  }

  lemma DecimalUpper(word: bytes, width: bytes, scale: bytes)
    requires IsNumeral(width) && IsNumeral(scale)
    ensures Upper(word + [LPAREN] + (width + [COMMA] + scale) + [RPAREN])
            == Upper(word) + [LPAREN] + (width + [COMMA] + scale) + [RPAREN]
    ensures var u := Upper(word) + [LPAREN] + (width + [COMMA] + scale) + [RPAREN];
            Upper(u) == u && Upper(Upper(word)) == Upper(word)
  {
    UpperNumeral(width);
    UpperNumeral(scale);
  }

  lemma BracketIsNoScalar(u: bytes)
    requires |u| > 7 && Upper(u) == u && u[7] == LPAREN
    ensures ScalarNamed(u).None?
  {
    if ScalarNamed(u).Some? {
      NamesExact(u, ScalarNamed(u).value);
      ScalarIsPlain(u, ScalarNamed(u).value);
    }
  }

  /** A text that starts with no blank and ends with a bracket is not trimmed. */
  lemma UpperShape(u: bytes)
    requires |u| > 0 && !IsBlank(u[0]) && !IsBlank(u[|u| - 1])
    ensures Trim(u) == u
  {
  }

  lemma NoKeywords(s: bytes)
    requires NoMarks(s)
    ensures !StartsWith(Upper(s), Ascii("LIST<")) && !StartsWith(Upper(s), Ascii("ARRAY<"))
    ensures !StartsWith(Upper(s), Ascii("MAP<")) && !StartsWith(Upper(s), Ascii("STRUCT("))
    ensures !StartsWith(Upper(s), Ascii("UNION("))
  {
    Keywords();
    NoKeyword(s, "LIST", LESS, "LIST<");
    NoKeyword(s, "ARRAY", LESS, "ARRAY<");
    NoKeyword(s, "MAP", LESS, "MAP<");
    NoKeyword(s, "STRUCT", LPAREN, "STRUCT(");
    assert Ascii("UNION(") == Ascii("UNION") + [LPAREN];
    NoKeyword(s, "UNION", LPAREN, "UNION(");
  }

  /** The limits under which a spelling is read: 32 levels of nesting and 4096 bytes. */
  predicate Fits(s: Spelling, depth: nat) { depth + Nesting(s) <= 32 && |TypeText(s)| <= 4096 }

  lemma FirstLetter(word: bytes, name: string, rest: bytes)
    requires IsWord(word, name) && name != ""
    ensures word != [] && (word + rest)[0] == word[0] && UpperByte(word[0]) == name[0] as int % 256
  {
    WordIs(word, name);
    assert Upper(word)[0] == Ascii(name)[0];
  }

  lemma ListBranch(s: bytes, inner: bytes, depth: nat)
    requires depth <= MAX_NESTING && |s| <= MAX_LENGTH && s != [] && Normalize(s) == s
    requires StartsWith(Upper(s), Ascii("LIST<")) && BracketedArgs(s, 4, LESS, GREATER) == Some(inner)
    ensures ParseType(s, depth) == match ParseType(inner, depth + 1) case None => None case Some(c) => Some(List(c))
  {
  }

  lemma ArrayBranch(s: bytes, inner: bytes, a: bytes, b: bytes, depth: nat)
    requires depth <= MAX_NESTING && |s| <= MAX_LENGTH && s != [] && Normalize(s) == s
    requires !StartsWith(Upper(s), Ascii("LIST<"))
    requires StartsWith(Upper(s), Ascii("ARRAY<")) && BracketedArgs(s, 5, LESS, GREATER) == Some(inner)
    requires SplitCommas(inner) == [a, b] && ParseUnsigned(b).Some?
    ensures ParseType(s, depth)
         == match ParseType(a, depth + 1)
            case None => None
            case Some(c) => if ParseUnsigned(b).value == 0 then None else Some(Array(c, ParseUnsigned(b).value))
  {
  }

  lemma MapBranch(s: bytes, inner: bytes, a: bytes, b: bytes, depth: nat)
    requires depth <= MAX_NESTING && |s| <= MAX_LENGTH && s != [] && Normalize(s) == s
    requires !StartsWith(Upper(s), Ascii("LIST<")) && !StartsWith(Upper(s), Ascii("ARRAY<"))
    requires StartsWith(Upper(s), Ascii("MAP<")) && BracketedArgs(s, 3, LESS, GREATER) == Some(inner)
    requires SplitCommas(inner) == [a, b]
    ensures ParseType(s, depth)
         == var k := ParseType(a, depth + 1);
            var v := ParseType(b, depth + 1);
            if k.None? || v.None? then None else Some(Map(k.value, v.value))
  {
  }

  lemma StructBranch(s: bytes, inner: bytes, depth: nat)
    requires depth <= MAX_NESTING && |s| <= MAX_LENGTH && s != [] && Normalize(s) == s
    requires !StartsWith(Upper(s), Ascii("LIST<")) && !StartsWith(Upper(s), Ascii("ARRAY<"))
    requires !StartsWith(Upper(s), Ascii("MAP<")) && StartsWith(Upper(s), Ascii("STRUCT("))
    requires BracketedArgs(s, 6, LPAREN, RPAREN) == Some(inner) && SplitCommas(inner) != []
    ensures ParseType(s, depth)
         == match ParseFields(SplitCommas(inner), depth) case None => None case Some(fs) => Some(Struct(fs))
  {
  }

  lemma ListArgs(s: bytes, word: bytes, child: Spelling)
    requires SpellingOk(SList(word, child)) && s == TypeText(SList(word, child))
    ensures BracketedArgs(s, 4, LESS, GREATER) == Some(TypeText(child))
  {
    WordIs(word, "LIST");
    WrapParts(s, 0, word, LESS, TypeText(child), GREATER);
    TextPasses(s, |word| + 1, child, BracketScan(GREATER));
    InnerText(s, word, TypeText(child), LESS, GREATER);
  }

  lemma ListParses(word: bytes, child: Spelling, depth: nat)
    requires SpellingOk(SList(word, child)) && depth <= MAX_NESTING && |TypeText(SList(word, child))| <= MAX_LENGTH
    ensures |TypeText(child)| <= MAX_LENGTH
    ensures ParseType(TypeText(SList(word, child)), depth)
         == match ParseType(TypeText(child), depth + 1) case None => None case Some(c) => Some(List(c))
  {
    var s := TypeText(SList(word, child));
    TextShape(SList(word, child));
    ShapeIsNormal(s);
    ListArgs(s, word, child);
    ListKeyword(word, TypeText(child));
    ListBranch(s, TypeText(child), depth);
  }

  lemma ListKeyword(word: bytes, inner: bytes)
    requires IsWord(word, "LIST")
    ensures StartsWith(Upper(word + [LESS] + inner + [GREATER]), Ascii("LIST<"))
  {
    assert word + [LESS] + inner + [GREATER] == word + [LESS] + (inner + [GREATER]);
    Keywords();
    UpperWord(word, "LIST", LESS, inner + [GREATER], "LIST<");
  }

  lemma ArrayParses(word: bytes, child: Spelling, size: bytes, depth: nat)
    requires SpellingOk(SArray(word, child, size)) && depth <= MAX_NESTING
    requires |TypeText(SArray(word, child, size))| <= MAX_LENGTH
    ensures |TypeText(child)| <= MAX_LENGTH
    ensures ParseType(TypeText(SArray(word, child, size)), depth)
         == match ParseType(TypeText(child), depth + 1)
            case None => None
            case Some(c) => if DigitsValue(size) == 0 then None else Some(Array(c, DigitsValue(size)))
  {
    var c := TypeText(child);
    ArrayArgs(word, child, size);
    ArrayKeyword(word, c, size);
    TextShape(SArray(word, child, size));
    ShapeIsNormal(TypeText(SArray(word, child, size)));
    NumeralTrims(size);
    ArrayBranch(TypeText(SArray(word, child, size)), c + [COMMA] + size, c, size, depth);
  }

  lemma ArrayKeyword(word: bytes, a: bytes, b: bytes)
    requires IsWord(word, "ARRAY")
    ensures var s := word + [LESS] + (a + [COMMA] + b) + [GREATER];
            !StartsWith(Upper(s), Ascii("LIST<")) && StartsWith(Upper(s), Ascii("ARRAY<"))
  {
    var inner := a + [COMMA] + b;
    var s := word + [LESS] + inner + [GREATER];
    assert s == word + [LESS] + (inner + [GREATER]);
    Keywords();
    FirstLetter(word, "ARRAY", [LESS] + inner + [GREATER]);
    OtherKeyword(s, "LIST<");
    UpperWord(word, "ARRAY", LESS, inner + [GREATER], "ARRAY<");
  }

  lemma ArrayArgs(word: bytes, child: Spelling, size: bytes)
    requires SpellingOk(SArray(word, child, size))
    ensures BracketedArgs(TypeText(SArray(word, child, size)), 5, LESS, GREATER) == Some(TypeText(child) + [COMMA] + size)
    ensures SplitCommas(TypeText(child) + [COMMA] + size) == [TypeText(child), size]
  {
    ArrayBrackets(TypeText(SArray(word, child, size)), TypeText(child) + [COMMA] + size, word, child, size);
    PairStands(TypeText(child), size);
    ArrayCommas(TypeText(child) + [COMMA] + size, child, size);
  }

  lemma ArrayBrackets(s: bytes, inner: bytes, word: bytes, child: Spelling, size: bytes)
    requires SpellingOk(SArray(word, child, size)) && inner == TypeText(child) + [COMMA] + size
    requires s == word + [LESS] + inner + [GREATER]
    ensures BracketedArgs(s, 5, LESS, GREATER) == Some(inner)
  {
    var ct := TypeText(child);
    WordIs(word, "ARRAY");
    AtSlice(s, 0, s);
    var p, q, end := PairParts(s, 0, word, LESS, ct, size, GREATER);
    TextAndNumberPass(s, p, child, size, BracketScan(GREATER));
    InnerText(s, word, inner, LESS, GREATER);
  }

  lemma ArrayCommas(inner: bytes, child: Spelling, size: bytes)
    requires SpellingOk(child) && IsNumeral(size) && PairAt(inner, TypeText(child), size)
    ensures SplitCommas(inner) == [TypeText(child), size]
  {
    var a := TypeText(child);
    TextHead(inner, 0, child);
    NumeralLast(inner, |a| + 1, size);
    TwoParts(inner, a, size);
  }

  lemma TwoParts(inner: bytes, a: bytes, b: bytes)
    requires |a| < |inner| && Parts(inner, |a| + 1) == [b] && Parts(inner, 0) == [a] + Parts(inner, |a| + 1)
    ensures SplitCommas(inner) == [a, b]
  {
  }

  lemma MapParses(word: bytes, key: Spelling, value: Spelling, depth: nat)
    requires SpellingOk(SMap(word, key, value)) && depth <= MAX_NESTING
    requires |TypeText(SMap(word, key, value))| <= MAX_LENGTH
    ensures |TypeText(key)| <= MAX_LENGTH && |TypeText(value)| <= MAX_LENGTH
    ensures ParseType(TypeText(SMap(word, key, value)), depth)
         == var k := ParseType(TypeText(key), depth + 1);
            var v := ParseType(TypeText(value), depth + 1);
            if k.None? || v.None? then None else Some(Map(k.value, v.value))
  {
    var s := TypeText(SMap(word, key, value));
    MapArgs(word, key, value);
    MapKeyword(word, TypeText(key), TypeText(value));
    TextShape(SMap(word, key, value));
    ShapeIsNormal(s);
    MapBranch(s, TypeText(key) + [COMMA] + TypeText(value), TypeText(key), TypeText(value), depth);
  }

  lemma MapKeyword(word: bytes, a: bytes, b: bytes)
    requires IsWord(word, "MAP")
    ensures var s := word + [LESS] + (a + [COMMA] + b) + [GREATER];
            !StartsWith(Upper(s), Ascii("LIST<")) && !StartsWith(Upper(s), Ascii("ARRAY<"))
            && StartsWith(Upper(s), Ascii("MAP<"))
  {
    var inner := a + [COMMA] + b;
    var s := word + [LESS] + inner + [GREATER];
    assert s == word + [LESS] + (inner + [GREATER]);
    Keywords();
    FirstLetter(word, "MAP", [LESS] + inner + [GREATER]);
    OtherKeyword(s, "LIST<");
    OtherKeyword(s, "ARRAY<");
    UpperWord(word, "MAP", LESS, inner + [GREATER], "MAP<");
  }

  lemma MapArgs(word: bytes, key: Spelling, value: Spelling)
    requires SpellingOk(SMap(word, key, value))
    ensures BracketedArgs(TypeText(SMap(word, key, value)), 3, LESS, GREATER)
         == Some(TypeText(key) + [COMMA] + TypeText(value))
    ensures SplitCommas(TypeText(key) + [COMMA] + TypeText(value)) == [TypeText(key), TypeText(value)]
  {
    WordIs(word, "MAP");
    MapBrackets(TypeText(SMap(word, key, value)), TypeText(key) + [COMMA] + TypeText(value), word, key, value);
    PairStands(TypeText(key), TypeText(value));
    MapCommas(TypeText(key) + [COMMA] + TypeText(value), key, value);
  }

  lemma MapBrackets(s: bytes, inner: bytes, word: bytes, key: Spelling, value: Spelling)
    requires |word| == 3 && SpellingOk(key) && SpellingOk(value) && inner == TypeText(key) + [COMMA] + TypeText(value)
    requires s == word + [LESS] + inner + [GREATER]
    ensures BracketedArgs(s, 3, LESS, GREATER) == Some(inner)
  {
    var kt, vt := TypeText(key), TypeText(value);
    AtSlice(s, 0, s);
    var p, q, end := PairParts(s, 0, word, LESS, kt, vt, GREATER);
    TwoTextsPass(s, p, word, key, value, BracketScan(GREATER));
    InnerText(s, word, inner, LESS, GREATER);
  }

  lemma MapCommas(inner: bytes, key: Spelling, value: Spelling)
    requires SpellingOk(key) && SpellingOk(value) && PairAt(inner, TypeText(key), TypeText(value))
    ensures SplitCommas(inner) == [TypeText(key), TypeText(value)]
  {
    var a, b := TypeText(key), TypeText(value);
    TextHead(inner, 0, key);
    TextLast(inner, |a| + 1, value);
    TwoParts(inner, a, b);
  }

  lemma StructParses(word: bytes, fields: seq<SField>, depth: nat)
    requires SpellingOk(SStruct(word, fields)) && depth <= MAX_NESTING
    requires |TypeText(SStruct(word, fields))| <= MAX_LENGTH
    ensures |FieldsText(fields)| <= MAX_LENGTH
    ensures ParseType(TypeText(SStruct(word, fields)), depth)
         == match ParseFields(FieldTexts(fields), depth) case None => None case Some(fs) => Some(Struct(fs))
  {
    var s := TypeText(SStruct(word, fields));
    var inner := FieldsText(fields);
    TextShape(SStruct(word, fields));
    ShapeIsNormal(s);
    StructKeyword(word, inner);
    StructArgs(s, inner, word, fields);
    StructBranch(s, inner, depth);
  }

  lemma StructArgs(s: bytes, inner: bytes, word: bytes, fields: seq<SField>)
    requires SpellingOk(SStruct(word, fields)) && inner == FieldsText(fields) && s == word + [LPAREN] + inner + [RPAREN]
    ensures BracketedArgs(s, 6, LPAREN, RPAREN) == Some(inner)
    ensures SplitCommas(inner) == FieldTexts(fields) != []
  {
    WordIs(word, "STRUCT");
    WrapParts(s, 0, word, LPAREN, inner, RPAREN);
    FieldsPass(s, |word| + 1, fields, BracketScan(RPAREN));
    InnerText(s, word, inner, LPAREN, RPAREN);
    SplitFields(inner, 0, fields);
  }

  lemma StructKeyword(word: bytes, inner: bytes)
    requires IsWord(word, "STRUCT")
    ensures var s := word + [LPAREN] + inner + [RPAREN];
            !StartsWith(Upper(s), Ascii("LIST<")) && !StartsWith(Upper(s), Ascii("ARRAY<"))
            && !StartsWith(Upper(s), Ascii("MAP<")) && StartsWith(Upper(s), Ascii("STRUCT("))
  {
    var s := word + [LPAREN] + inner + [RPAREN];
    assert s == word + [LPAREN] + (inner + [RPAREN]);
    Keywords();
    FirstLetter(word, "STRUCT", [LPAREN] + inner + [RPAREN]);
    OtherKeyword(s, "LIST<");
    OtherKeyword(s, "ARRAY<");
    OtherKeyword(s, "MAP<");
    UpperWord(word, "STRUCT", LPAREN, inner + [RPAREN], "STRUCT(");
  }

  lemma DecimalTypeParses(word: bytes, width: bytes, scale: bytes, depth: nat)
    requires SpellingOk(SDecimal(word, width, scale)) && depth <= MAX_NESTING
    requires |TypeText(SDecimal(word, width, scale))| <= MAX_LENGTH
    ensures ParseType(TypeText(SDecimal(word, width, scale)), depth) == Some(Denotes(SDecimal(word, width, scale)))
  {
    var s := TypeText(SDecimal(word, width, scale));
    TextShape(SDecimal(word, width, scale));
    ShapeIsNormal(s);
    FirstLetter(word, "DECIMAL", [LPAREN] + (width + [COMMA] + scale) + [RPAREN]);
    OtherKeyword(s, "LIST<");
    OtherKeyword(s, "ARRAY<");
    OtherKeyword(s, "MAP<");
    OtherKeyword(s, "STRUCT(");
    OtherKeyword(s, "UNION(");
    DecimalSpelling(word, width, scale);
  }

  lemma ScalarTypeParses(word: bytes, id: ScalarId, depth: nat)
    requires SpellingOk(SScalar(word, id)) && depth <= MAX_NESTING && |word| <= MAX_LENGTH
    ensures ParseType(word, depth) == Some(Denotes(SScalar(word, id)))
  {
    TextShape(SScalar(word, id));
    ScalarWordIs(word, id);
    NamedWordParses(word, id, depth);
  }

  lemma {:induction false} NamedWordParses(word: bytes, id: ScalarId, depth: nat)
    requires Names(Upper(word), id) && Shape(word) && depth <= MAX_NESTING && |word| <= MAX_LENGTH
    ensures ParseType(word, depth) == Some(Scalar(id))
  {
    ScalarHasNoMarks(word, id);
    ShapeIsNormal(word);
    BareWordExact(word, depth, Scalar(id));
  }

  lemma ScalarHasNoMarks(word: bytes, id: ScalarId)
    requires Names(Upper(word), id)
    ensures NoMarks(word)
  {
    ScalarIsPlain(word, id);
  }

  lemma FieldParses(f: SField, depth: nat)
    requires IsIdentifier(f.name) && SpellingOk(f.fieldType) && depth <= MAX_NESTING
    ensures ParseField(FieldText(f), depth)
         == match ParseType(TypeText(f.fieldType), depth + 1) case None => None case Some(t) => Some(Field(f.name, t))
  {
    var s := FieldText(f);
    assert s[..|f.name|] == f.name && s[|f.name| + 1..] == TypeText(f.fieldType);
    GapBehindName(s, 0, f.name);
    IdentifierTrims(f.name);
    TextShape(f.fieldType);
    ShapeIsNormal(TypeText(f.fieldType));
  }

  /** A field whose name is no identifier is refused, whatever type follows. */
  lemma BadNameIsRefused(name: bytes, typeText: bytes, depth: nat)
    requires depth <= MAX_NESTING && !IsIdentifier(name) && forall i :: 0 <= i < |name| ==> !IsBlank(name[i])
    ensures ParseField(name + [SPACE] + typeText, depth) == None
  {
    var s := name + [SPACE] + typeText;
    assert s[..|name|] == name;
    NoGapIn(s, 0, |name|);
    TrimsNothing(name);
  }

  lemma {:induction false} NoGapIn(s: bytes, i: nat, n: nat)
    requires i <= n < |s| && s[n] == SPACE && forall k :: 0 <= k < n ==> !IsBlank(s[k])
    ensures FirstGap(s, i) == Some(n)
    decreases n - i
  {
    if i < n { NoGapIn(s, i + 1, n); }
  }

  lemma {:induction false} TrimsNothing(s: bytes)
    requires forall i :: 0 <= i < |s| ==> !IsBlank(s[i])
    ensures Trim(s) == s
  {
  }

  /** The parser reads `s` as the type it denotes when it respects the limits and no ARRAY has size 0, and refuses it otherwise. */
  predicate Parses(s: Spelling, depth: nat)
    requires SpellingOk(s)
  {
    ParseType(TypeText(s), depth) == if Fits(s, depth) && Sized(s) then Some(Denotes(s)) else None
  }

  /**
   Type-string round trip, exactly: a spelling is read back as the type it denotes when it
   respects the nesting and length limits and no ARRAY in it has size 0, and refused otherwise.
   */
  lemma {:induction false} SpellingParses(s: Spelling, depth: nat)
    requires SpellingOk(s)
    ensures Parses(s, depth)
    decreases s, 1
  {
    if depth > MAX_NESTING || |TypeText(s)| > MAX_LENGTH {
      BeyondLimits(s, depth);
    } else {
      match s
      case SScalar(word, id) => ScalarFits(word, id, depth);
      case SDecimal(word, width, scale) => DecimalFits(word, width, scale, depth);
      case SList(word, child) =>
        SpellingParses(child, depth + 1);
        ListFits(word, child, depth);
      case SArray(word, child, size) =>
        SpellingParses(child, depth + 1);
        ArrayFits(word, child, size, depth);
      case SMap(word, key, value) =>
        SpellingParses(key, depth + 1);
        SpellingParses(value, depth + 1);
        MapFits(word, key, value, depth);
      case SStruct(word, fields) =>
        StructShorter(word, fields);
        FieldsParse(fields, depth);
        StructFits(word, fields, depth);
    }
  }

  lemma StructShorter(word: bytes, fields: seq<SField>)
    ensures |FieldsText(fields)| <= |TypeText(SStruct(word, fields))|
  {
  }

  lemma StructFits(word: bytes, fields: seq<SField>, depth: nat)
    requires SpellingOk(SStruct(word, fields)) && depth <= MAX_NESTING && |TypeText(SStruct(word, fields))| <= MAX_LENGTH
    requires ParseFields(FieldTexts(fields), depth)
          == if depth + 1 + FieldsNesting(fields) <= MAX_NESTING && FieldsSized(fields) then Some(DenotesFields(fields)) else None
    ensures Parses(SStruct(word, fields), depth)
  {
    StructParses(word, fields, depth);
  }

  lemma BeyondLimits(s: Spelling, depth: nat)
    requires SpellingOk(s) && (depth > MAX_NESTING || |TypeText(s)| > MAX_LENGTH)
    ensures Parses(s, depth)
  {
  }

  lemma ScalarFits(word: bytes, id: ScalarId, depth: nat)
    requires SpellingOk(SScalar(word, id)) && depth <= MAX_NESTING && |word| <= MAX_LENGTH
    ensures Parses(SScalar(word, id), depth)
  {
    ScalarTypeParses(word, id, depth);
  }

  lemma DecimalFits(word: bytes, width: bytes, scale: bytes, depth: nat)
    requires SpellingOk(SDecimal(word, width, scale)) && depth <= MAX_NESTING
    requires |TypeText(SDecimal(word, width, scale))| <= MAX_LENGTH
    ensures Parses(SDecimal(word, width, scale), depth)
  {
    DecimalTypeParses(word, width, scale, depth);
  }

  lemma ListFits(word: bytes, child: Spelling, depth: nat)
    requires SpellingOk(SList(word, child)) && depth <= MAX_NESTING && |TypeText(SList(word, child))| <= MAX_LENGTH
    requires Parses(child, depth + 1)
    ensures Parses(SList(word, child), depth)
  {
    ListParses(word, child, depth);
  }

  lemma ArrayFits(word: bytes, child: Spelling, size: bytes, depth: nat)
    requires SpellingOk(SArray(word, child, size)) && depth <= MAX_NESTING
    requires |TypeText(SArray(word, child, size))| <= MAX_LENGTH && Parses(child, depth + 1)
    ensures Parses(SArray(word, child, size), depth)
  {
    ArrayParses(word, child, size, depth);
  }

  lemma MapFits(word: bytes, key: Spelling, value: Spelling, depth: nat)
    requires SpellingOk(SMap(word, key, value)) && depth <= MAX_NESTING
    requires |TypeText(SMap(word, key, value))| <= MAX_LENGTH && Parses(key, depth + 1) && Parses(value, depth + 1)
    ensures Parses(SMap(word, key, value), depth)
  {
    MapParses(word, key, value, depth);
  }

  lemma {:induction false} FieldsParse(fs: seq<SField>, depth: nat)
    requires FieldsOk(fs) && depth <= MAX_NESTING && |FieldsText(fs)| <= MAX_LENGTH
    ensures ParseFields(FieldTexts(fs), depth)
         == if fs == [] || (depth + 1 + FieldsNesting(fs) <= MAX_NESTING && FieldsSized(fs)) then Some(DenotesFields(fs)) else None
    decreases fs, 2
  {
    if fs != [] {
      FieldParses(fs[0], depth);
      SpellingParses(fs[0].fieldType, depth + 1);
      FieldsParse(fs[1..], depth);
      assert FieldTexts(fs)[1..] == FieldTexts(fs[1..]);
    }
  }

  // ---- texts without brackets ----

  /** The normal form of a text without brackets and commas has none, and no blank at either end. */
  lemma {:induction false} NormalizedIsClean(s: bytes, previous: byte)
    requires NoMarks(s)
    ensures var n := Normalized(s, previous);
            NoMarks(n) && (n != [] ==> !IsBlank(n[|n| - 1]) && (IsBracketOrComma(previous) ==> !IsBlank(n[0])))
            && (s != [] && !IsBlank(s[0]) ==> n != [])
    decreases |s|
  {
    if s != [] {
      if IsBlank(s[0]) {
        var rest := TrimLeft(s[1..]);
        TrimLeftKeeps(s[1..]);
        NormalizedIsClean(rest, SPACE);
        NormalizedIsClean(rest, previous);
      } else {
        NormalizedIsClean(s[1..], s[0]);
      }
    }
  }

  lemma {:induction false} TrimLeftKeeps(s: bytes)
    requires NoMarks(s)
    ensures NoMarks(TrimLeft(s))
  {
    if s != [] && IsBlank(s[0]) { TrimLeftKeeps(s[1..]); }
  }

  /**
   A text without brackets, parentheses and commas is read as a type exactly when, its blanks
   normalized and its letters capital, it stands in the table of names; and then as that type.
   */
  lemma BareWordExact(word: bytes, depth: nat, t: LogicalType)
    requires NoMarks(word)
    ensures ParseType(word, depth) == Some(t)
            <==> depth <= 32 && |word| <= 4096 && t.Scalar? && Names(Upper(Normalize(word)), t.id)
  {
    var n := Normalize(word);
    NormalizedIsClean(word, COMMA);
    NoKeywords(n);
    if n == [] {
      if t.Scalar? { NamesArePlain(t.id); }
    } else {
      UpperShape(Upper(n));
      NoKeyword(n, "DECIMAL", LPAREN, "DECIMAL(");
      if t.Scalar? { NamesExact(Upper(n), t.id); }
    }
  }

  // ---- canonical spellings, and the whitespace between tokens ----

  /** The canonical name of a scalar type, in capitals, is read as that type. */
  lemma ScalarNameRoundTrip(id: ScalarId)
    ensures ScalarNamed(Ascii(ScalarName(id))) == Some(id)
    ensures Upper(Ascii(ScalarName(id))) == Ascii(ScalarName(id))
  {
    NamesExact(Ascii(ScalarName(id)), id);
    ScalarNameIsUpper(id);
  }

  lemma ScalarNameIsUpper(id: ScalarId)
    ensures Upper(Ascii(ScalarName(id))) == Ascii(ScalarName(id))
  {
    NamesArePlain(id);
    PlainIsUpper(ScalarName(id));
  }

  lemma PlainIsUpper(name: string)
    requires PlainLiteral(name)
    ensures Upper(Ascii(name)) == Ascii(name)
  {
    forall i | 0 <= i < |name| ensures UpperByte(Ascii(name)[i]) == Ascii(name)[i] {
      assert PlainLiteralAt(name, i);
    }
  }

  /** The types that have a type string. */
  predicate Parseable(t: LogicalType)
    decreases t, 1
  {
    match t
    case Any => false
    case Union(_) => false
    case Foreign(_) => false
    case Scalar(_) => true
    case Decimal(width, scale) => width < 256 && scale < 256
    case List(child) => Parseable(child)
    case Array(child, size) => Parseable(child) && 0 < size < 0x1_0000_0000_0000_0000
    case Map(key, value) => Parseable(key) && Parseable(value)
    case Struct(fields) => fields != [] && ParseableFields(fields)
  }

  predicate ParseableFields(fs: seq<Field>)
    decreases fs, 2
  {
    fs == [] || (IsIdentifier(fs[0].name) && Parseable(fs[0].fieldType) && ParseableFields(fs[1..]))
  }

  function Canonical(t: LogicalType): Spelling
    requires Parseable(t)
    decreases t, 1
  {
    match t
    case Scalar(id) => SScalar(Ascii(ScalarName(id)), id)
    case Decimal(width, scale) => SDecimal(Ascii("DECIMAL"), Digits(width), Digits(scale))
    case List(child) => SList(Ascii("LIST"), Canonical(child))
    case Array(child, size) => SArray(Ascii("ARRAY"), Canonical(child), Digits(size))
    case Map(key, value) => SMap(Ascii("MAP"), Canonical(key), Canonical(value))
    case Struct(fields) => SStruct(Ascii("STRUCT"), CanonicalFields(fields))
  }

  function CanonicalFields(fs: seq<Field>): (r: seq<SField>)
    requires ParseableFields(fs)
    ensures |r| == |fs|
    decreases fs, 2
  {
    if fs == [] then [] else [SField(fs[0].name, Canonical(fs[0].fieldType))] + CanonicalFields(fs[1..])
  }

  lemma KeywordsAreWords()
    ensures IsWord(Ascii("LIST"), "LIST") && IsWord(Ascii("ARRAY"), "ARRAY") && IsWord(Ascii("MAP"), "MAP")
    ensures IsWord(Ascii("STRUCT"), "STRUCT") && IsWord(Ascii("DECIMAL"), "DECIMAL")
  {
    KeywordsArePlain();
    PlainIsUpper("LIST");
    PlainIsUpper("ARRAY");
    PlainIsUpper("MAP");
    PlainIsUpper("STRUCT");
    PlainIsUpper("DECIMAL");
  }

  lemma CanonicalNameIsWord(id: ScalarId)
    ensures IsScalarWord(Ascii(ScalarName(id)), id)
  {
    ScalarNameIsUpper(id);
  }

  /** The canonical spelling of `t` is one, and denotes `t`. */
  ghost predicate Spelled(t: LogicalType)
    requires Parseable(t)
  {
    SpellingOk(Canonical(t)) && Denotes(Canonical(t)) == t && Sized(Canonical(t))
  }

  lemma {:induction false} CanonicalDenotes(t: LogicalType)
    requires Parseable(t)
    ensures Spelled(t)
    decreases t, 1
  {
    match t
    case Scalar(id) => CanonicalNameIsWord(id);
    case Decimal(width, scale) => DecimalSpelled(width, scale);
    case List(child) =>
      CanonicalDenotes(child);
      ListSpelled(child);
    case Array(child, size) =>
      CanonicalDenotes(child);
      ArraySpelled(child, size);
    case Map(key, value) =>
      CanonicalDenotes(key);
      CanonicalDenotes(value);
      MapSpelled(key, value);
    case Struct(fields) =>
      CanonicalFieldsDenote(fields);
      StructSpelled(fields);
  }

  lemma {:induction false} DecimalSpelled(width: nat, scale: nat)
    requires width < 256 && scale < 256
    ensures Spelled(Decimal(width, scale))
  {
    KeywordsAreWords();
    ByteNumeral(width);
    ByteNumeral(scale);
  }

  lemma ByteNumeral(n: nat)
    requires n < 256
    ensures IsNumeral(Digits(n)) && DigitsValue(Digits(n)) % 256 == n
  {
    DigitsRoundTrip(n);
  }

  lemma {:induction false} ListSpelled(child: LogicalType)
    requires Parseable(child) && Spelled(child)
    ensures Spelled(List(child))
  {
    KeywordsAreWords();
  }

  lemma {:induction false} ArraySpelled(child: LogicalType, size: nat)
    requires Parseable(child) && Spelled(child) && Parseable(Array(child, size))
    ensures Spelled(Array(child, size))
  {
    KeywordsAreWords();
    DigitsRoundTrip(size);
  }

  lemma {:induction false} MapSpelled(key: LogicalType, value: LogicalType)
    requires Parseable(key) && Parseable(value) && Spelled(key) && Spelled(value)
    ensures Spelled(Map(key, value))
  {
    KeywordsAreWords();
  }

  lemma {:induction false} StructSpelled(fields: seq<Field>)
    requires fields != [] && ParseableFields(fields) && FieldsOk(CanonicalFields(fields)) && FieldsSized(CanonicalFields(fields))
    requires DenotesFields(CanonicalFields(fields)) == fields
    ensures Spelled(Struct(fields))
  {
    KeywordsAreWords();
  }

  lemma {:induction false} CanonicalFieldsDenote(fs: seq<Field>)
    requires ParseableFields(fs)
    ensures FieldsOk(CanonicalFields(fs)) && DenotesFields(CanonicalFields(fs)) == fs && FieldsSized(CanonicalFields(fs))
    decreases fs, 2
  {
    if fs != [] {
      CanonicalDenotes(fs[0].fieldType);
      CanonicalFieldsDenote(fs[1..]);
      assert CanonicalFields(fs)[1..] == CanonicalFields(fs[1..]);
      assert [Field(fs[0].name, fs[0].fieldType)] + fs[1..] == fs;
    }
  }

  /** Type-string round trip: the canonical print of a type is read back as that type, exactly within the limits. */
  lemma TypeRoundTrips(t: LogicalType)
    requires Parseable(t)
    ensures ParseType(TypeText(Canonical(t)), 0) == if Fits(Canonical(t), 0) then Some(t) else None
  {
    CanonicalDenotes(t);
    SpellingParses(Canonical(t), 0);
  }

  /** Whitespace next to a bracket, a parenthesis, a comma or an end of the string never matters. */
  lemma BlanksAreFree(a: bytes, blanks: bytes, b: bytes, depth: nat)
    requires AllBlank(blanks) && |a + blanks + b| <= MAX_LENGTH
    requires a == [] || b == [] || IsBracketOrComma(a[|a| - 1]) || IsBracketOrComma(b[0])
    ensures ParseType(a + blanks + b, depth) == ParseType(a + b, depth)
  {
    InsertBlanks(a, blanks, b, COMMA);
  }
}
