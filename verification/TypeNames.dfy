/**
 The names of the scalar types in a type string, as a table: one canonical name for each type
 and another one for four of them. The parser's chain of comparisons is proved to be this table.
 */
module TypeNames {
  import opened Bytes
  import opened Types
  import opened TypeParser

  function ScalarName(id: ScalarId): string {
    match id
    case BOOLEAN => "BOOLEAN"
    case TINYINT => "TINYINT"
    case SMALLINT => "SMALLINT"
    case INTEGER => "INTEGER"
    case BIGINT => "BIGINT"
    case HUGEINT => "HUGEINT"
    case UTINYINT => "UTINYINT"
    case USMALLINT => "USMALLINT"
    case UINTEGER => "UINTEGER"
    case UBIGINT => "UBIGINT"
    case UHUGEINT => "UHUGEINT"
    case FLOAT => "FLOAT"
    case DOUBLE => "DOUBLE"
    case VARCHAR => "VARCHAR"
    case UUID => "UUID"
    case DATE => "DATE"
    case TIME => "TIME"
    case TIME_TZ => "TIMETZ"
    case TIMESTAMP => "TIMESTAMP"
    case TIMESTAMP_S => "TIMESTAMP_S"
    case TIMESTAMP_MS => "TIMESTAMP_MS"
    case TIMESTAMP_NS => "TIMESTAMP_NS"
    case TIMESTAMP_TZ => "TIMESTAMPTZ"
    case INTERVAL => "INTERVAL"
    case BLOB => "BLOB"
    case BIT => "BIT"
  }

  /** The second name that four of the types have. */
  function OtherName(id: ScalarId): Option<string> {
    match id
    case INTEGER => Some("INT")
    case VARCHAR => Some("STRING")
    case TIME_TZ => Some("TIME WITH TIME ZONE")
    case TIMESTAMP_TZ => Some("TIMESTAMP WITH TIME ZONE")
    case _ => None
  }

  /** `s` is a name of `id`. */
  predicate Names(s: bytes, id: ScalarId) {
    s == Ascii(ScalarName(id)) || (OtherName(id).Some? && s == Ascii(OtherName(id).value))
  }

  /** The parser's names are exactly those of the table: a text names at most one type, and no other text names one. */
  lemma NamesExact(s: bytes, id: ScalarId)
    ensures ScalarNamed(s) == Some(id) <==> Names(s, id)
  {
    if ScalarNamed(s) == Some(id) { NamedStands(s, id); }
    if Names(s, id) { NamesAreNamed(s, id); }
  }

  lemma NamesAreNamed(s: bytes, id: ScalarId)
    requires Names(s, id)
    ensures ScalarNamed(s) == Some(id)
  {
    CanonicalNamed(id);
    if OtherName(id).Some? { AliasNamed(id); }
  }

  lemma NamedStands(s: bytes, id: ScalarId)
    requires ScalarNamed(s) == Some(id)
    ensures Names(s, id)
  {
    if SignedNamed(s) == Some(id) {
      SignedStands(s, id);
    } else if UnsignedNamed(s) == Some(id) {
      UnsignedStands(s, id);
    } else if TextNamed(s) == Some(id) {
      TextStands(s, id);
    } else {
      TimeStands(s, id);
    }
  }

  lemma UnsignedStands(s: bytes, id: ScalarId)
    requires UnsignedNamed(s) == Some(id)
    ensures Names(s, id)
  {
  }

  lemma SignedStands(s: bytes, id: ScalarId)
    requires SignedNamed(s) == Some(id)
    ensures Names(s, id)
  {
  }

  lemma TextStands(s: bytes, id: ScalarId)
    requires TextNamed(s) == Some(id)
    ensures Names(s, id)
  {
  }

  lemma TimeStands(s: bytes, id: ScalarId)
    requires TimeNamed(s) == Some(id)
    ensures Names(s, id)
  {
  }

  lemma AliasNamed(id: ScalarId)
    requires OtherName(id).Some?
    ensures ScalarNamed(Ascii(OtherName(id).value)) == Some(id)
  {
    var name := OtherName(id).value;
    var s := Ascii(name);
    assert s[0] == name[0] as int % 256 && s[1] == name[1] as int % 256;
  }

  lemma CanonicalNamed(id: ScalarId)
    ensures ScalarNamed(Ascii(ScalarName(id))) == Some(id)
  {
    if IntRange(id).Some? {
      if IntRange(id).value.0 < 0 { SignedCanonical(id); } else { UnsignedCanonical(id); }
    } else if HasLongName(id) {
      LongCanonical(id);
    } else {
      OtherCanonical(id);
    }
  }

  lemma SignedCanonical(id: ScalarId)
    requires IntRange(id).Some? && IntRange(id).value.0 < 0
    ensures ScalarNamed(Ascii(ScalarName(id))) == Some(id)
  {
    var name := ScalarName(id);
    var s := Ascii(name);
    assert s[0] == name[0] as int % 256 && s[1] == name[1] as int % 256;
  }

  lemma UnsignedCanonical(id: ScalarId)
    requires IntRange(id).Some? && IntRange(id).value.0 == 0
    ensures ScalarNamed(Ascii(ScalarName(id))) == Some(id)
  {
    var name := ScalarName(id);
    var s := Ascii(name);
    assert s[0] == name[0] as int % 256 && s[1] == name[1] as int % 256;
  }

  predicate HasLongName(id: ScalarId) { id.TIMESTAMP_S? || id.TIMESTAMP_MS? || id.TIMESTAMP_NS? || id.TIMESTAMP_TZ? }

  predicate IsClock(id: ScalarId) { id.TIME? || id.TIME_TZ? }

  predicate IsTextual(id: ScalarId) { id.VARCHAR? || id.TIMESTAMP? }

  predicate IsBinary(id: ScalarId) { id.UUID? || id.BLOB? || id.BIT? || id.DATE? }

  lemma OtherCanonical(id: ScalarId)
    requires IntRange(id).None? && !HasLongName(id)
    ensures ScalarNamed(Ascii(ScalarName(id))) == Some(id)
  {
    if IsClock(id) {
      ClockCanonical(id);
    } else if IsBinary(id) {
      BinaryCanonical(id);
    } else if IsTextual(id) {
      TextualCanonical(id);
    } else {
      PlainCanonical(id);
    }
  }

  lemma ClockCanonical(id: ScalarId)
    requires IsClock(id)
    ensures ScalarNamed(Ascii(ScalarName(id))) == Some(id)
  {
    var name := ScalarName(id);
    var s := Ascii(name);
    assert s[0] == name[0] as int % 256 && s[1] == name[1] as int % 256;
  }

  lemma BinaryCanonical(id: ScalarId)
    requires IsBinary(id)
    ensures ScalarNamed(Ascii(ScalarName(id))) == Some(id)
  {
    var name := ScalarName(id);
    var s := Ascii(name);
    assert s[0] == name[0] as int % 256 && s[1] == name[1] as int % 256;
  }

  lemma PlainCanonical(id: ScalarId)
    requires IntRange(id).None? && !HasLongName(id) && !IsClock(id) && !IsBinary(id) && !IsTextual(id)
    ensures ScalarNamed(Ascii(ScalarName(id))) == Some(id)
  {
    var name := ScalarName(id);
    var s := Ascii(name);
    assert s[0] == name[0] as int % 256 && s[1] == name[1] as int % 256;
  }

  lemma TextualCanonical(id: ScalarId)
    requires IsTextual(id)
    ensures ScalarNamed(Ascii(ScalarName(id))) == Some(id)
  {
    var name := ScalarName(id);
    var s := Ascii(name);
    assert s[0] == name[0] as int % 256 && s[1] == name[1] as int % 256;
  }

  lemma LongCanonical(id: ScalarId)
    requires HasLongName(id)
    ensures ScalarNamed(Ascii(ScalarName(id))) == Some(id)
  {
    var name := ScalarName(id);
    var s := Ascii(name);
    assert |s| > 10 && s[9] == name[9] as int % 256 && s[10] == name[10] as int % 256;
  }
}
