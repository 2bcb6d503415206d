/**
 JSON texts as syntax trees (RFC 8259): a tree keeps the insignificant whitespace and the
 spelling of every string, so `Text` is exactly the text it stands for.
 */
module JsonSyntax {
  import opened Bytes
  import opened Utf8

  /** One unit of a string literal: a raw byte, a short escape or a \u escape. */
  datatype StrUnit = Plain(b: byte) | Esc(c: byte) | Hex(h3: byte, h2: byte, h1: byte, h0: byte)

  datatype Json =
    | Null
    | True
    | False
    | Num(text: bytes)
    | Str(units: seq<StrUnit>)
    | Arr(items: seq<Slot>, pad: bytes)
    | Obj(members: seq<Member>, pad: bytes)

  /** A value and the whitespace around it. */
  datatype Slot = Slot(before: bytes, value: Json, after: bytes)

  datatype Member = Member(before: bytes, key: seq<StrUnit>, afterKey: bytes, slot: Slot)

  const NULL_TEXT: bytes := [110, 117, 108, 108]
  const TRUE_TEXT: bytes := [116, 114, 117, 101]
  const FALSE_TEXT: bytes := [102, 97, 108, 115, 101]

  // ---- strings ----

  predicate IsHex(c: byte) { 48 <= c <= 57 || 97 <= c <= 102 || 65 <= c <= 70 }

  function HexValue(c: byte): (v: nat)
    requires IsHex(c)
    ensures v < 16
  {
    if c <= 57 then (c as int) - 48 else if c >= 97 then (c as int) - 87 else (c as int) - 55
  }

  function HexDigit(v: nat): (c: byte)
    requires v < 16
    ensures IsHex(c) && HexValue(c) == v
  {
    if v < 10 then 48 + v else 87 + v
  }

  /** The byte a short escape stands for: one of "\/bfnrt. */
  function EscapeOf(c: byte): Option<byte> {
    if c == QUOTE || c == BACKSLASH || c == 47 then Some(c)
    else if c == 98 then Some(8)
    else if c == 102 then Some(12)
    else if c == 110 then Some(NEWLINE)
    else if c == 114 then Some(RETURN)
    else if c == 116 then Some(TAB)
    else None
  }

  function HexCode(h3: byte, h2: byte, h1: byte, h0: byte): (cp: nat)
    requires IsHex(h3) && IsHex(h2) && IsHex(h1) && IsHex(h0)
    ensures cp < 0x10000
  {
    HexValue(h3) * 4096 + HexValue(h2) * 256 + HexValue(h1) * 16 + HexValue(h0)
  }

  predicate UnitOk(u: StrUnit) {
    match u
    case Plain(b) => b != QUOTE && b != BACKSLASH
    case Esc(c) => EscapeOf(c).Some?
    case Hex(h3, h2, h1, h0) => IsHex(h3) && IsHex(h2) && IsHex(h1) && IsHex(h0)
  }

  predicate UnitsOk(us: seq<StrUnit>) { forall i :: 0 <= i < |us| ==> UnitOk(us[i]) }

  function UnitText(u: StrUnit): (r: bytes)
    ensures |r| > 0
  {
    match u
    case Plain(b) => [b]
    case Esc(c) => [BACKSLASH, c]
    case Hex(h3, h2, h1, h0) => [BACKSLASH, 117, h3, h2, h1, h0]
  }

  function UnitValue(u: StrUnit): bytes
    requires UnitOk(u)
  {
    match u
    case Plain(b) => [b]
    case Esc(c) => [EscapeOf(c).value]
    case Hex(h3, h2, h1, h0) => EncodeUtf8(HexCode(h3, h2, h1, h0))
  }

  function UnitsText(us: seq<StrUnit>): bytes {
    if us == [] then [] else UnitText(us[0]) + UnitsText(us[1..])
  }

  function UnitsValue(us: seq<StrUnit>): bytes
    requires UnitsOk(us)
  {
    if us == [] then [] else UnitValue(us[0]) + UnitsValue(us[1..])
  }

  function StrText(us: seq<StrUnit>): bytes { [QUOTE] + UnitsText(us) + [QUOTE] }

  lemma {:induction false} UnitsTextConcat(a: seq<StrUnit>, b: seq<StrUnit>)
    ensures UnitsText(a + b) == UnitsText(a) + UnitsText(b)
  {
    if a == [] {
      assert a + b == b;
    } else {
      UnitsTextConcat(a[1..], b);
      assert (a + b)[1..] == a[1..] + b;
      Associate(UnitText(a[0]), UnitsText(a[1..]), UnitsText(b));
    }
  }

  lemma {:induction false} UnitsValueConcat(a: seq<StrUnit>, b: seq<StrUnit>)
    requires UnitsOk(a) && UnitsOk(b)
    ensures UnitsOk(a + b) && UnitsValue(a + b) == UnitsValue(a) + UnitsValue(b)
  {
    if a == [] {
      assert a + b == b;
    } else {
      UnitsValueConcat(a[1..], b);
      assert (a + b)[1..] == a[1..] + b;
      Associate(UnitValue(a[0]), UnitsValue(a[1..]), UnitsValue(b));
    }
  }

  function PlainUnits(s: bytes): (r: seq<StrUnit>)
    ensures |r| == |s| && forall i :: 0 <= i < |s| ==> r[i] == Plain(s[i])
  {
    seq(|s|, i requires 0 <= i < |s| => Plain(s[i]))
  }

  lemma {:induction false} PlainUnitsMeaning(s: bytes)
    ensures UnitsText(PlainUnits(s)) == s
    ensures UnitsOk(PlainUnits(s)) ==> UnitsValue(PlainUnits(s)) == s
  {
    if s != [] {
      PlainUnitsMeaning(s[1..]);
      assert PlainUnits(s)[1..] == PlainUnits(s[1..]);
      assert s == [s[0]] + s[1..];
    }
  }

  // ---- whole texts ----

  predicate IsSpace(b: byte) { b == SPACE || b == TAB || b == NEWLINE || b == RETURN }

  predicate Blank(s: bytes) { forall i :: 0 <= i < |s| ==> IsSpace(s[i]) }

  /** The bytes a number token is made of. */
  predicate NumByte(b: byte) { IsDigit(b) || b == MINUS || b == PLUS || b == DOT || b == 101 || b == 69 }

  predicate NumText(s: bytes) {
    |s| > 0 && (s[0] == MINUS || IsDigit(s[0])) && forall i :: 0 <= i < |s| ==> NumByte(s[i])
  }

  function Text(j: Json): bytes
    decreases j, 2
  {
    match j
    case Null => NULL_TEXT
    case True => TRUE_TEXT
    case False => FALSE_TEXT
    case Num(text) => text
    case Str(units) => StrText(units)
    case Arr(items, pad) => [LBRACKET] + ItemsText(items, true) + pad + [RBRACKET]
    case Obj(members, pad) => [LBRACE] + MembersText(members, true) + pad + [RBRACE]
  }

  function SlotText(s: Slot): bytes
    decreases s, 3
  {
    s.before + Text(s.value) + s.after
  }

  function MemberText(m: Member): bytes
    decreases m, 4
  {
    m.before + StrText(m.key) + m.afterKey + [COLON] + SlotText(m.slot)
  }

  function Separator(first: bool): bytes { if first then [] else [COMMA] }

  function ItemsText(items: seq<Slot>, first: bool): bytes
    decreases items, 5
  {
    if items == [] then [] else Separator(first) + SlotText(items[0]) + ItemsText(items[1..], false)
  }

  function MembersText(members: seq<Member>, first: bool): bytes
    decreases members, 5
  {
    if members == [] then [] else Separator(first) + MemberText(members[0]) + MembersText(members[1..], false)
  }

  /** The tree is a JSON text: whitespace is blank, literals and strings are well formed. */
  predicate WellFormedJson(j: Json)
    decreases j, 2
  {
    match j
    case Null => true
    case True => true
    case False => true
    case Num(text) => NumText(text)
    case Str(units) => UnitsOk(units)
    case Arr(items, pad) => Blank(pad) && ItemsOk(items)
    case Obj(members, pad) => Blank(pad) && MembersOk(members)
  }

  predicate ItemsOk(items: seq<Slot>)
    decreases items, 5
  {
    items == []
    || (Blank(items[0].before) && WellFormedJson(items[0].value) && Blank(items[0].after) && ItemsOk(items[1..]))
  }

  predicate MembersOk(ms: seq<Member>)
    decreases ms, 5
  {
    ms == []
    || (Blank(ms[0].before) && UnitsOk(ms[0].key) && Blank(ms[0].afterKey) && Blank(ms[0].slot.before)
        && WellFormedJson(ms[0].slot.value) && Blank(ms[0].slot.after) && MembersOk(ms[1..]))
  }

  predicate SlotOk(s: Slot) { Blank(s.before) && WellFormedJson(s.value) && Blank(s.after) }

  predicate MemberOk(m: Member) { Blank(m.before) && UnitsOk(m.key) && Blank(m.afterKey) && SlotOk(m.slot) }

  /** A token with no closing delimiter of its own. */
  predicate Bare(j: Json) { j.Null? || j.True? || j.False? || j.Num? }

  /** What may follow a bare token for the raw scan to stop there. */
  predicate Delimited(json: bytes, pos: nat) {
    pos >= |json| || json[pos] == COMMA || json[pos] == RBRACKET || json[pos] == RBRACE || IsSpace(json[pos])
  }

  lemma FirstByte(j: Json)
    requires WellFormedJson(j)
    ensures |Text(j)| > 0 && !IsSpace(Text(j)[0])
    ensures Text(j)[0] != RBRACKET && Text(j)[0] != RBRACE && Text(j)[0] != COMMA
    ensures j.Num? <==> Text(j)[0] == MINUS || IsDigit(Text(j)[0])
    ensures j.Str? <==> Text(j)[0] == QUOTE
    ensures j.Arr? <==> Text(j)[0] == LBRACKET
    ensures j.Obj? <==> Text(j)[0] == LBRACE
    ensures j.Null? <==> Text(j)[0] == 110
    ensures j.True? <==> Text(j)[0] == 116
    ensures j.False? <==> Text(j)[0] == 102
  {
  }

  // ---- where the parts of a text stand ----

  lemma StrParts(json: bytes, pos: nat, us: seq<StrUnit>)
    requires At(json, pos, StrText(us))
    ensures pos < |json| && json[pos] == QUOTE && At(json, pos + 1, UnitsText(us) + [QUOTE])
    ensures |StrText(us)| == |UnitsText(us)| + 2
  {
    assert StrText(us) == [QUOTE] + (UnitsText(us) + [QUOTE]);
    AtConcat(json, pos, [QUOTE], UnitsText(us) + [QUOTE]);
    AtOne(json, pos, QUOTE);
  }

  lemma UnitsParts(json: bytes, pos: nat, us: seq<StrUnit>)
    requires us != [] && At(json, pos, UnitsText(us) + [QUOTE])
    ensures At(json, pos, UnitText(us[0]))
    ensures At(json, pos + |UnitText(us[0])|, UnitsText(us[1..]) + [QUOTE])
    ensures |UnitsText(us)| == |UnitText(us[0])| + |UnitsText(us[1..])|
  {
    assert UnitsText(us) + [QUOTE] == UnitText(us[0]) + (UnitsText(us[1..]) + [QUOTE]);
    AtConcat(json, pos, UnitText(us[0]), UnitsText(us[1..]) + [QUOTE]);
  }

  lemma ArrParts(json: bytes, pos: nat, items: seq<Slot>, pad: bytes)
    requires At(json, pos, Text(Arr(items, pad)))
    ensures pos < |json| && json[pos] == LBRACKET
    ensures At(json, pos + 1, ItemsText(items, true))
    ensures At(json, pos + 1 + |ItemsText(items, true)|, pad)
    ensures |Text(Arr(items, pad))| == |ItemsText(items, true)| + |pad| + 2
    ensures At(json, pos + |Text(Arr(items, pad))| - 1, [RBRACKET])
  {
    AtConcat4(json, pos, [LBRACKET], ItemsText(items, true), pad, [RBRACKET]);
    AtOne(json, pos, LBRACKET);
  }

  lemma ObjParts(json: bytes, pos: nat, members: seq<Member>, pad: bytes)
    requires At(json, pos, Text(Obj(members, pad)))
    ensures pos < |json| && json[pos] == LBRACE
    ensures At(json, pos + 1, MembersText(members, true))
    ensures At(json, pos + 1 + |MembersText(members, true)|, pad)
    ensures |Text(Obj(members, pad))| == |MembersText(members, true)| + |pad| + 2
    ensures At(json, pos + |Text(Obj(members, pad))| - 1, [RBRACE])
  {
    AtConcat4(json, pos, [LBRACE], MembersText(members, true), pad, [RBRACE]);
    AtOne(json, pos, LBRACE);
  }

  lemma SlotParts(json: bytes, pos: nat, s: Slot)
    requires At(json, pos, SlotText(s))
    ensures At(json, pos, s.before)
    ensures At(json, pos + |s.before|, Text(s.value))
    ensures At(json, pos + |s.before| + |Text(s.value)|, s.after)
    ensures |SlotText(s)| == |s.before| + |Text(s.value)| + |s.after|
  {
    AtConcat3(json, pos, s.before, Text(s.value), s.after);
  }

  lemma ItemsParts(json: bytes, pos: nat, items: seq<Slot>, first: bool)
    requires items != [] && At(json, pos, ItemsText(items, first))
    ensures At(json, pos, Separator(first))
    ensures At(json, pos + |Separator(first)|, SlotText(items[0]))
    ensures At(json, pos + |Separator(first)| + |SlotText(items[0])|, ItemsText(items[1..], false))
    ensures |ItemsText(items, first)| == |Separator(first)| + |SlotText(items[0])| + |ItemsText(items[1..], false)|
  {
    AtConcat3(json, pos, Separator(first), SlotText(items[0]), ItemsText(items[1..], false));
  }

  lemma MembersParts(json: bytes, pos: nat, ms: seq<Member>, first: bool)
    requires ms != [] && At(json, pos, MembersText(ms, first))
    ensures At(json, pos, Separator(first))
    ensures At(json, pos + |Separator(first)|, MemberText(ms[0]))
    ensures At(json, pos + |Separator(first)| + |MemberText(ms[0])|, MembersText(ms[1..], false))
    ensures |MembersText(ms, first)| == |Separator(first)| + |MemberText(ms[0])| + |MembersText(ms[1..], false)|
  {
    AtConcat3(json, pos, Separator(first), MemberText(ms[0]), MembersText(ms[1..], false));
  }

  lemma MemberParts(json: bytes, pos: nat, m: Member)
    requires At(json, pos, MemberText(m))
    ensures At(json, pos, m.before)
    ensures At(json, pos + |m.before|, StrText(m.key))
    ensures At(json, pos + |m.before| + |StrText(m.key)|, m.afterKey)
    ensures At(json, pos + |m.before| + |StrText(m.key)| + |m.afterKey|, [COLON])
    ensures At(json, pos + |m.before| + |StrText(m.key)| + |m.afterKey| + 1, SlotText(m.slot))
    ensures |MemberText(m)| == |m.before| + |StrText(m.key)| + |m.afterKey| + 1 + |SlotText(m.slot)|
  {
    var head := m.before + StrText(m.key) + m.afterKey;
    AtConcat3(json, pos, head, [COLON], SlotText(m.slot));
    AtConcat3(json, pos, m.before, StrText(m.key), m.afterKey);
  }
}
