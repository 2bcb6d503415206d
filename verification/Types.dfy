/**
 The logical types and values the codec moves, as far as the wire format sees them.
 */
module Types {
  import opened Bytes

  datatype ScalarId =
    | BOOLEAN
    | TINYINT | SMALLINT | INTEGER | BIGINT | HUGEINT
    | UTINYINT | USMALLINT | UINTEGER | UBIGINT | UHUGEINT
    | FLOAT | DOUBLE
    | VARCHAR | UUID
    | DATE | TIME | TIME_TZ
    | TIMESTAMP | TIMESTAMP_S | TIMESTAMP_MS | TIMESTAMP_NS | TIMESTAMP_TZ
    | INTERVAL | BLOB | BIT

  /** Logical types. `Foreign` is one known by its name only: an ENUM, or a type of an extension. */
  datatype LogicalType =
    | Any
    | Scalar(id: ScalarId)
    | Decimal(width: nat, scale: nat)
    | List(child: LogicalType)
    | Array(child: LogicalType, size: nat)
    | Map(key: LogicalType, value: LogicalType)
    | Struct(fields: seq<Field>)
    | Union(members: seq<Field>)
    | Foreign(name: bytes)

  datatype Field = Field(name: bytes, fieldType: LogicalType)

  /**
   SQL values. `Shown` is a value of a type whose text form the database makes, given by that
   text; `Tagged` is the member a UNION holds.
   */
  datatype Value =
    | Null
    | Bool(b: bool)
    | Int(n: int)
    | Text(s: bytes)
    | Elements(items: seq<Value>)
    | Row(fields: seq<Value>)
    | Pairs(entries: seq<Entry>)
    | Shown(text: bytes)
    | Interval(months: int, days: int, micros: int)
    | Tagged(member: nat, value: Value)

  datatype Entry = Entry(key: Value, value: Value)

  /** The least and greatest value of an integer type. */
  function IntRange(id: ScalarId): Option<(int, int)> {
    match id
    case TINYINT => Some((-0x80, 0x7F))
    case SMALLINT => Some((-0x8000, 0x7FFF))
    case INTEGER => Some((-0x8000_0000, 0x7FFF_FFFF))
    case BIGINT => Some((-0x8000_0000_0000_0000, 0x7FFF_FFFF_FFFF_FFFF))
    case HUGEINT => Some((-0x8000_0000_0000_0000_0000_0000_0000_0000, 0x7FFF_FFFF_FFFF_FFFF_FFFF_FFFF_FFFF_FFFF))
    case UTINYINT => Some((0, 0xFF))
    case USMALLINT => Some((0, 0xFFFF))
    case UINTEGER => Some((0, 0xFFFF_FFFF))
    case UBIGINT => Some((0, 0xFFFF_FFFF_FFFF_FFFF))
    case UHUGEINT => Some((0, 0xFFFF_FFFF_FFFF_FFFF_FFFF_FFFF_FFFF_FFFF))
    case _ => None
  }

  /** The two's complement ranges of 8, 16, 32, 64 and 128 bits, in decimal. */
  lemma IntegerRanges()
    ensures IntRange(TINYINT) == Some((-128, 127)) && IntRange(UTINYINT) == Some((0, 255))
    ensures IntRange(SMALLINT) == Some((-32768, 32767)) && IntRange(USMALLINT) == Some((0, 65535))
    ensures IntRange(INTEGER) == Some((-2147483648, 2147483647)) && IntRange(UINTEGER) == Some((0, 4294967295))
    ensures IntRange(BIGINT) == Some((-9223372036854775808, 9223372036854775807))
    ensures IntRange(UBIGINT) == Some((0, 18446744073709551615))
    ensures IntRange(HUGEINT)
         == Some((-170141183460469231731687303715884105728, 170141183460469231731687303715884105727))
    ensures IntRange(UHUGEINT) == Some((0, 340282366920938463463374607431768211455))
  {
  }

  predicate InRange(id: ScalarId, n: int) {
    IntRange(id).Some? && IntRange(id).value.0 <= n <= IntRange(id).value.1
  }

  /** The types whose values travel in the text form the database makes. */
  predicate HasTextForm(t: LogicalType) {
    match t
    case Scalar(id) => IntRange(id).None? && id != BOOLEAN && id != VARCHAR && id != INTERVAL
    case Decimal(_, _) => true
    case Foreign(_) => true
    case _ => false
  }

  /** `v` is a value of type `t`. NULL has every type. */
  predicate HasType(v: Value, t: LogicalType)
    decreases v, 1
  {
    v.Null? ||
    match t
    case Any => false
    case Scalar(id) =>
      (id == BOOLEAN && v.Bool?) || (id == VARCHAR && v.Text?) || (v.Int? && InRange(id, v.n))
      || (id == INTERVAL && v.Interval?) || (HasTextForm(t) && v.Shown?)
    case Decimal(_, _) => v.Shown?
    case Foreign(_) => v.Shown?
    case Union(members) => v.Tagged? && v.member < |members| && HasType(v.value, members[v.member].fieldType)
    case List(child) => v.Elements? && AllHaveType(v.items, child)
    case Array(child, size) => v.Elements? && |v.items| == size && AllHaveType(v.items, child)
    case Map(key, value) => v.Pairs? && EntriesHaveType(v.entries, key, value)
    case Struct(fields) => v.Row? && FieldsHaveType(v.fields, fields)
  }

  predicate AllHaveType(vs: seq<Value>, t: LogicalType)
    decreases vs, 0
  {
    vs == [] || (HasType(vs[0], t) && AllHaveType(vs[1..], t))
  }

  predicate EntriesHaveType(es: seq<Entry>, key: LogicalType, value: LogicalType)
    decreases es, 0
  {
    es == [] || (EntryHasType(es[0], key, value) && EntriesHaveType(es[1..], key, value))
  }

  predicate EntryHasType(e: Entry, key: LogicalType, value: LogicalType)
    decreases e, 0
  {
    HasType(e.key, key) && HasType(e.value, value)
  }

  predicate FieldsHaveType(vs: seq<Value>, fields: seq<Field>)
    decreases vs, 0
  {
    |vs| == |fields| && (vs == [] || (HasType(vs[0], fields[0].fieldType) && FieldsHaveType(vs[1..], fields[1..])))
  }
}
