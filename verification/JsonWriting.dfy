/**
 The response side's output-only JSON writer: string escaping and the comma bookkeeping
 with one `first` flag for the whole stack of open containers. The writer is proved to
 print, for every protocol-respecting sequence of calls, exactly the tree those calls
 describe.
 */
module JsonWriting {
  import opened Bytes
  import opened Utf8
  import opened JsonSyntax
  import opened JsonScan

  // ---- escaping (section 7 of RFC 8259) ----

  function ShortEscape(b: byte): Option<byte> {
    if b == QUOTE || b == BACKSLASH then Some(b)
    else if b == 8 then Some(98)
    else if b == 12 then Some(102)
    else if b == NEWLINE then Some(110)
    else if b == RETURN then Some(114)
    else if b == TAB then Some(116)
    else None
  }

  /** What the escape loop emits for the bytes it consumes at `i`. */
  function EscapeUnits(s: bytes, i: nat): seq<StrUnit>
    requires i < |s|
  {
    var b := s[i];
    if 0x20 <= b < 0x80 && b != QUOTE && b != BACKSLASH then [Plain(b)]
    else if ShortEscape(b).Some? then [Esc(ShortEscape(b).value)]
    else if b < 0x20 then [Hex(ZERO, ZERO, HexDigit(b / 16), HexDigit(b % 16))]
    else if ValidateUtf8(s, i) == 0 then PlainUnits(REPLACEMENT)
    else PlainUnits(s[i..i + ValidateUtf8(s, i)])
  }

  function EscapedFrom(s: bytes, i: nat): seq<StrUnit>
    requires i <= |s|
    decreases |s| - i
  {
    if i == |s| then [] else EscapeUnits(s, i) + EscapedFrom(s, i + StepAt(s, i))
  }

  /** The string literal the writer produces for `s`. */
  function Escaped(s: bytes): seq<StrUnit> { EscapedFrom(s, 0) }

  /** No byte below 0x20: in particular no line break. */
  predicate Printable(s: bytes) { forall i :: 0 <= i < |s| ==> s[i] >= 0x20 }

  /** A line of an NDJSON body: no control byte, valid UTF-8. */
  predicate Line(s: bytes) { Printable(s) && WellFormed(s) }

  lemma LineConcat(a: bytes, b: bytes)
    requires Line(a) && Line(b)
    ensures Line(a + b)
  {
    WellFormedConcat(a, 0, b);
  }

  lemma EscapeUnitsMeaning(s: bytes, i: nat)
    requires i < |s|
    ensures UnitsOk(EscapeUnits(s, i))
    ensures UnitsValue(EscapeUnits(s, i)) == CleanUnit(s, i)
  {
    var b := s[i];
    if b < 0x80 {
      assert s[i..i + 1] == [b];
      assert UnitsValue(EscapeUnits(s, i)) == UnitValue(EscapeUnits(s, i)[0]);
      if b < 0x20 && ShortEscape(b).None? {
        assert HexCode(ZERO, ZERO, HexDigit(b / 16), HexDigit(b % 16)) == b;
      }
    } else if ValidateUtf8(s, i) == 0 {
      PlainUnitsMeaning(REPLACEMENT);
    } else {
      HighBytes(s, i);
      PlainUnitsMeaning(s[i..i + ValidateUtf8(s, i)]);
    }
  }

  /** No byte of a multi-byte sequence can be taken for a quote, a backslash or a control byte. */
  lemma HighBytes(s: bytes, i: nat)
    requires i < |s| && s[i] >= 0x80
    ensures forall k :: i <= k < i + ValidateUtf8(s, i) ==> s[k] >= 0x80
  {
  }

  lemma EscapeUnitsClean(s: bytes, i: nat)
    requires i < |s|
    ensures Line(UnitsText(EscapeUnits(s, i)))
  {
    var us := EscapeUnits(s, i);
    if s[i] < 0x80 {
      assert UnitsText(us) == UnitText(us[0]);
      if us[0].Hex? {
        assert s[i] / 16 < 2;
        WellFormedAscii(UnitText(us[0]), 0);
      } else {
        WellFormedAscii(UnitText(us[0]), 0);
      }
    } else if ValidateUtf8(s, i) == 0 {
      PlainUnitsMeaning(REPLACEMENT);
    } else {
      HighBytes(s, i);
      PlainUnitsMeaning(s[i..i + ValidateUtf8(s, i)]);
      WellFormedUnit(s, i);
    }
  }

  lemma {:induction false} WellFormedAscii(s: bytes, i: nat)
    requires i <= |s| && forall k :: 0 <= k < |s| ==> s[k] < 0x80
    ensures WellFormedFrom(s, i)
    decreases |s| - i
  {
    if i < |s| { WellFormedAscii(s, i + 1); }
  }

  /** The first step through `s`: the units written for it and the bytes they stand for. */
  lemma EscapeStep(s: bytes, i: nat) returns (next: nat, a: seq<StrUnit>, va: bytes)
    requires i < |s|
    ensures i < next <= |s| && UnitsOk(a) && UnitsValue(a) == va && Line(UnitsText(a))
    ensures EscapedFrom(s, i) == a + EscapedFrom(s, next) && SanitizedFrom(s, i) == va + SanitizedFrom(s, next)
  {
    EscapeUnitsMeaning(s, i);
    EscapeUnitsClean(s, i);
    next, a, va := i + StepAt(s, i), EscapeUnits(s, i), CleanUnit(s, i);
  }

  /** The literal stands for the string with its invalid bytes replaced. */
  lemma {:induction false} EscapedMeaning(s: bytes, i: nat)
    requires i <= |s|
    ensures UnitsOk(EscapedFrom(s, i)) && UnitsValue(EscapedFrom(s, i)) == SanitizedFrom(s, i)
    decreases |s| - i
  {
    if i < |s| {
      var next, a, va := EscapeStep(s, i);
      EscapedMeaning(s, next);
      JoinMeaning(a, EscapedFrom(s, next), va, SanitizedFrom(s, next), EscapedFrom(s, i), SanitizedFrom(s, i));
    }
  }

  lemma JoinMeaning(a: seq<StrUnit>, b: seq<StrUnit>, va: bytes, vb: bytes, whole: seq<StrUnit>, value: bytes)
    requires UnitsOk(a) && UnitsOk(b) && UnitsValue(a) == va && UnitsValue(b) == vb
    requires whole == a + b && value == va + vb
    ensures UnitsOk(whole) && UnitsValue(whole) == value
  {
    UnitsValueConcat(a, b);
  }

  /** String round trip: what the writer quotes, the request scanner reads back. */
  lemma StringRoundTrip(json: bytes, pos: nat, s: bytes)
    requires At(json, pos, StrText(Escaped(s)))
    ensures StringAt(json, pos) == Ok(Sanitized(s), pos + |StrText(Escaped(s))|)
    ensures WellFormed(s) <==> Sanitized(s) == s
  {
    EscapedMeaning(s, 0);
    StringAgrees(json, pos, Escaped(s));
    SanitizedProperties(s);
  }

  /** The text between the quotes of a literal is one line of valid UTF-8. */
  predicate CleanUnits(us: seq<StrUnit>) {
    UnitsOk(us) && Line(UnitsText(us))
  }

  lemma {:induction false} EscapedClean(s: bytes, i: nat)
    requires i <= |s|
    ensures CleanUnits(EscapedFrom(s, i))
    decreases |s| - i
  {
    EscapedMeaning(s, i);
    if i < |s| {
      var next, a, _ := EscapeStep(s, i);
      EscapedClean(s, next);
      JoinLines(a, EscapedFrom(s, next));
    }
  }

  lemma JoinLines(a: seq<StrUnit>, b: seq<StrUnit>)
    requires Line(UnitsText(a)) && Line(UnitsText(b))
    ensures Line(UnitsText(a + b))
  {
    UnitsTextConcat(a, b);
    LineConcat(UnitsText(a), UnitsText(b));
  }

  // ---- trees the writer can print ----

  /** A tree without insignificant whitespace and with clean strings. */
  predicate Compact(j: Json)
    decreases j, 2
  {
    match j
    case Num(text) => NumText(text)
    case Str(units) => CleanUnits(units)
    case Arr(items, pad) => pad == [] && CompactItems(items)
    case Obj(members, pad) => pad == [] && CompactMembers(members)
    case _ => true
  }

  predicate CompactItems(items: seq<Slot>)
    decreases items, 5
  {
    items == []
    || (items[0].before == [] && items[0].after == [] && Compact(items[0].value) && CompactItems(items[1..]))
  }

  predicate CompactMembers(ms: seq<Member>)
    decreases ms, 5
  {
    ms == []
    || (ms[0].before == [] && ms[0].afterKey == [] && ms[0].slot.before == [] && ms[0].slot.after == []
        && CleanUnits(ms[0].key) && Compact(ms[0].slot.value) && CompactMembers(ms[1..]))
  }

  lemma {:induction false} CompactIsJson(j: Json)
    requires Compact(j)
    ensures WellFormedJson(j)
    decreases j, 2
  {
    match j
    case Arr(items, pad) => CompactItemsAreJson(items);
    case Obj(members, pad) => CompactMembersAreJson(members);
    case _ =>
  }

  lemma {:induction false} CompactItemsAreJson(items: seq<Slot>)
    requires CompactItems(items)
    ensures ItemsOk(items)
    decreases items, 5
  {
    if items != [] {
      CompactIsJson(items[0].value);
      CompactItemsAreJson(items[1..]);
    }
  }

  lemma {:induction false} CompactMembersAreJson(ms: seq<Member>)
    requires CompactMembers(ms)
    ensures MembersOk(ms)
    decreases ms, 5
  {
    if ms != [] {
      CompactIsJson(ms[0].slot.value);
      CompactMembersAreJson(ms[1..]);
    }
  }

  lemma LineAscii(s: bytes)
    requires forall k :: 0 <= k < |s| ==> 0x20 <= s[k] < 0x80
    ensures Line(s)
  {
    WellFormedAscii(s, 0);
  }

  lemma LineString(us: seq<StrUnit>)
    requires CleanUnits(us)
    ensures Line(StrText(us))
  {
    LineAscii([QUOTE]);
    LineConcat([QUOTE], UnitsText(us));
    LineConcat([QUOTE] + UnitsText(us), [QUOTE]);
  }

  /** Every record the writer builds is one line of valid UTF-8. */
  lemma {:induction false} CompactIsOneLine(j: Json)
    requires Compact(j)
    ensures Line(Text(j))
    decreases j, 2
  {
    match j
    case Str(units) => LineString(units);
    case Arr(items, pad) =>
      CompactItemsAreOneLine(items, true);
      LineAscii([LBRACKET]);
      LineAscii([RBRACKET]);
      LineConcat([LBRACKET], ItemsText(items, true));
      assert [LBRACKET] + ItemsText(items, true) + pad == [LBRACKET] + ItemsText(items, true);
      LineConcat([LBRACKET] + ItemsText(items, true), [RBRACKET]);
    case Obj(members, pad) =>
      CompactMembersAreOneLine(members, true);
      LineAscii([LBRACE]);
      LineAscii([RBRACE]);
      LineConcat([LBRACE], MembersText(members, true));
      assert [LBRACE] + MembersText(members, true) + pad == [LBRACE] + MembersText(members, true);
      LineConcat([LBRACE] + MembersText(members, true), [RBRACE]);
    case _ => LineAscii(Text(j));
  }

  lemma {:induction false} CompactItemsAreOneLine(items: seq<Slot>, first: bool)
    requires CompactItems(items)
    ensures Line(ItemsText(items, first))
    decreases items, 5
  {
    LineAscii(Separator(first));
    if items != [] {
      CompactIsOneLine(items[0].value);
      CompactItemsAreOneLine(items[1..], false);
      assert SlotText(items[0]) == Text(items[0].value);
      LineConcat(Separator(first), SlotText(items[0]));
      LineConcat(Separator(first) + SlotText(items[0]), ItemsText(items[1..], false));
    } else {
      LineAscii([]);
    }
  }

  lemma {:induction false} CompactMembersAreOneLine(ms: seq<Member>, first: bool)
    requires CompactMembers(ms)
    ensures Line(MembersText(ms, first))
    decreases ms, 5
  {
    LineAscii(Separator(first));
    if ms != [] {
      var m := ms[0];
      CompactIsOneLine(m.slot.value);
      CompactMembersAreOneLine(ms[1..], false);
      LineString(m.key);
      LineAscii([COLON]);
      LineConcat(StrText(m.key), [COLON]);
      LineConcat(StrText(m.key) + [COLON], Text(m.slot.value));
      CompactMemberText(m);
      LineConcat(Separator(first), MemberText(m));
      LineConcat(Separator(first) + MemberText(m), MembersText(ms[1..], false));
    } else {
      LineAscii([]);
    }
  }

  lemma CompactMemberText(m: Member)
    requires m.before == [] && m.afterKey == [] && m.slot.before == [] && m.slot.after == []
    ensures MemberText(m) == StrText(m.key) + [COLON] + Text(m.slot.value)
  {
    assert SlotText(m.slot) == Text(m.slot.value);
    assert m.before + StrText(m.key) + m.afterKey == StrText(m.key);
  }

  // ---- the writer's state and its calls ----

  datatype Frame = ObjectKey | ObjectValue | ArrayFrame

  datatype Writer = Writer(buf: bytes, frames: seq<Frame>, first: bool)

  const FRESH := Writer([], [], true)

  datatype Call = BeginObject | EndObject | BeginArray | EndArray | Key(key: seq<StrUnit>) | Leaf(value: Json)

  function BeforeValue(w: Writer): Writer {
    if w.frames == [] then w
    else
      var top := |w.frames| - 1;
      match w.frames[top]
      case ArrayFrame => Writer(if w.first then w.buf else w.buf + [COMMA], w.frames, false)
      case ObjectValue => Writer(w.buf, w.frames[top := ObjectKey], false)
      case ObjectKey => w
  }

  function BeforeKey(w: Writer): Writer {
    if w.frames == [] || w.frames[|w.frames| - 1] != ObjectKey then w
    else Writer(if w.first then w.buf else w.buf + [COMMA], w.frames, false)
  }

  function Open(w: Writer, bracket: byte, frame: Frame): Writer {
    var b := BeforeValue(w);
    Writer(b.buf + [bracket], b.frames + [frame], true)
  }

  function Close(w: Writer, bracket: byte): Writer {
    if w.frames == [] then w else Writer(w.buf + [bracket], w.frames[..|w.frames| - 1], false)
  }

  function WriteKey(w: Writer, key: seq<StrUnit>): Writer {
    var b := BeforeKey(w);
    var buf := b.buf + StrText(key) + [COLON];
    Writer(buf, if b.frames == [] then [] else b.frames[|b.frames| - 1 := ObjectValue], b.first)
  }

  function WriteToken(w: Writer, token: bytes): Writer {
    var b := BeforeValue(w);
    b.(buf := b.buf + token)
  }

  function Apply(w: Writer, call: Call): Writer {
    match call
    case BeginObject => Open(w, LBRACE, ObjectKey)
    case EndObject => Close(w, RBRACE)
    case BeginArray => Open(w, LBRACKET, ArrayFrame)
    case EndArray => Close(w, RBRACKET)
    case Key(k) => WriteKey(w, k)
    case Leaf(j) => WriteToken(w, Text(j))
  }

  function Run(w: Writer, calls: seq<Call>): Writer
    decreases |calls|
  {
    if calls == [] then w else Run(Apply(w, calls[0]), calls[1..])
  }

  /** The writer object. Every method is one call of `Apply`, done in place. */
  class JsonWriter {
    var buf: bytes
    var frames: seq<Frame>
    var firstInFrame: bool

    function State(): Writer
      reads this
    {
      Writer(buf, frames, firstInFrame)
    }

    constructor ()
      ensures State() == FRESH
    {
      buf, frames, firstInFrame := [], [], true;
    }

    method Reset()
      modifies this
      ensures State() == FRESH
    {
      buf, frames, firstInFrame := [], [], true;
    }

    method Take() returns (out: bytes)
      modifies this
      ensures out == old(buf) && State() == FRESH
    {
      out := buf;
      Reset();
    }

    method EmitBeforeValue()
      modifies this
      ensures State() == BeforeValue(old(State()))
    {
      if frames == [] {
        return;
      }
      var top := frames[|frames| - 1];
      if top == ArrayFrame {
        if !firstInFrame {
          buf := buf + [COMMA];
        }
        firstInFrame := false;
      } else if top == ObjectValue {
        frames := frames[|frames| - 1 := ObjectKey];
        firstInFrame := false;
      }
    }

    method EmitBeforeKey()
      modifies this
      ensures State() == BeforeKey(old(State()))
    {
      if frames == [] || frames[|frames| - 1] != ObjectKey {
        return;
      }
      if !firstInFrame {
        buf := buf + [COMMA];
      }
      firstInFrame := false;
    }

    method BeginObject()
      modifies this
      ensures State() == Apply(old(State()), Call.BeginObject)
    {
      EmitBeforeValue();
      buf := buf + [LBRACE];
      frames := frames + [ObjectKey];
      firstInFrame := true;
    }

    method EndObject()
      modifies this
      ensures State() == Apply(old(State()), Call.EndObject)
    {
      if frames == [] {
        return;
      }
      buf := buf + [RBRACE];
      frames := frames[..|frames| - 1];
      firstInFrame := false;
    }

    method BeginArray()
      modifies this
      ensures State() == Apply(old(State()), Call.BeginArray)
    {
      EmitBeforeValue();
      buf := buf + [LBRACKET];
      frames := frames + [ArrayFrame];
      firstInFrame := true;
    }

    method EndArray()
      modifies this
      ensures State() == Apply(old(State()), Call.EndArray)
    {
      if frames == [] {
        return;
      }
      buf := buf + [RBRACKET];
      frames := frames[..|frames| - 1];
      firstInFrame := false;
    }

    /** With no open container the source reads the back of an empty string, which is undefined. */
    method Key(key: bytes)
      requires frames != []
      modifies this
      ensures State() == Apply(old(State()), Call.Key(Escaped(key)))
    {
      EmitBeforeKey();
      WriteEscapedString(key);
      buf := buf + [COLON];
      frames := frames[|frames| - 1 := ObjectValue];
    }

    method Null()
      modifies this
      ensures State() == Apply(old(State()), Leaf(Json.Null))
    {
      EmitBeforeValue();
      buf := buf + NULL_TEXT;
    }

    method Bool(v: bool)
      modifies this
      ensures State() == Apply(old(State()), Leaf(if v then True else False))
    {
      EmitBeforeValue();
      buf := buf + if v then TRUE_TEXT else FALSE_TEXT;
    }

    /** Int64, Uint64 and RawNumber: the token is the number's decimal numeral. */
    method Number(text: bytes)
      modifies this
      ensures State() == Apply(old(State()), Leaf(Num(text)))
    {
      EmitBeforeValue();
      buf := buf + text;
    }

    method String(s: bytes)
      modifies this
      ensures State() == Apply(old(State()), Leaf(Str(Escaped(s))))
    {
      EmitBeforeValue();
      WriteEscapedString(s);
    }

    method WriteEscapedString(s: bytes)
      modifies this`buf
      ensures buf == old(buf) + StrText(Escaped(s))
    {
      ghost var text := UnitsText(Escaped(s));
      assert buf + StrText(Escaped(s)) == buf + [QUOTE] + text + [QUOTE] by { QuotesAround(buf, text); }
      buf := buf + [QUOTE];
      ghost var whole := buf + text;
      var i := 0;
      while i < |s|
        invariant i <= |s|
        invariant buf + UnitsText(EscapedFrom(s, i)) == whole
      {
        var piece, consumed := EscapePiece(s, i);
        EscapeLoopStep(s, i, buf, whole);
        buf := buf + piece;
        i := i + consumed;
      }
      assert buf + [] == buf;
      buf := buf + [QUOTE];
    }
  }

  /** The body of the escape loop: what to append for the bytes at `i`, and how many they are. */
  method EscapePiece(s: bytes, i: nat) returns (piece: bytes, consumed: nat)
    requires i < |s|
    ensures piece == UnitsText(EscapeUnits(s, i)) && consumed == StepAt(s, i)
  {
    var b := s[i];
    if b >= 0x20 && b < 0x80 && b != QUOTE && b != BACKSLASH {
      return [b], 1;
    }
    var short := ShortEscape(b);
    if short.Some? {
      return [BACKSLASH, short.value], 1;
    }
    if b < 0x20 {
      return [BACKSLASH, 117, ZERO, ZERO, HexDigit(b / 16), HexDigit(b % 16)], 1;
    }
    var valid := ValidateUtf8(s, i);
    if valid == 0 {
      PlainUnitsMeaning(REPLACEMENT);
      return REPLACEMENT, 1;
    }
    PlainUnitsMeaning(s[i..i + valid]);
    return s[i..i + valid], valid;
  }

  lemma QuotesAround(before: bytes, text: bytes)
    ensures before + ([QUOTE] + text + [QUOTE]) == before + [QUOTE] + text + [QUOTE]
  {
  }

  /** One round of the escape loop moves the text of its units from what is left to the buffer. */
  lemma EscapeLoopStep(s: bytes, i: nat, buf: bytes, whole: bytes)
    requires i < |s| && buf + UnitsText(EscapedFrom(s, i)) == whole
    ensures buf + UnitsText(EscapeUnits(s, i)) + UnitsText(EscapedFrom(s, i + StepAt(s, i))) == whole
  {
    UnitsTextConcat(EscapeUnits(s, i), EscapedFrom(s, i + StepAt(s, i)));
    Associate(buf, UnitsText(EscapeUnits(s, i)), UnitsText(EscapedFrom(s, i + StepAt(s, i))));
  }

  // ---- the trees a sequence of calls describes ----

  /** A container that is still open: what it holds so far and, in an object, the key awaiting its value. */
  datatype Container = OpenArr(items: seq<Slot>) | OpenObj(members: seq<Member>, pending: Option<seq<StrUnit>>)

  datatype Doc = Doc(roots: seq<Json>, open: seq<Container>)

  const EMPTY_DOC := Doc([], [])

  function Top(d: Doc): Container
    requires d.open != []
  {
    d.open[|d.open| - 1]
  }

  function Below(d: Doc): Doc
    requires d.open != []
  {
    d.(open := d.open[..|d.open| - 1])
  }

  predicate TakesValue(c: Container) { c.OpenArr? || c.pending.Some? }

  predicate ExpectsValue(d: Doc) { d.open == [] || TakesValue(Top(d)) }

  predicate DocOk(d: Doc) { forall i :: 0 <= i < |d.open| - 1 ==> TakesValue(d.open[i]) }

  /** The protocol: keys and values alternate in objects, brackets match. */
  predicate CanCall(d: Doc, call: Call) {
    match call
    case EndObject => d.open != [] && Top(d).OpenObj? && Top(d).pending.None?
    case EndArray => d.open != [] && Top(d).OpenArr?
    case Key(_) => d.open != [] && Top(d).OpenObj? && Top(d).pending.None?
    case _ => ExpectsValue(d)
  }

  function Tight(j: Json): Slot { Slot([], j, []) }

  function Pair(key: seq<StrUnit>, j: Json): Member { Member([], key, [], Tight(j)) }

  function WithValue(c: Container, j: Json): Container
    requires TakesValue(c)
  {
    match c
    case OpenArr(items) => OpenArr(items + [Tight(j)])
    case OpenObj(ms, pending) => OpenObj(ms + [Pair(pending.value, j)], None)
  }

  function AddValue(d: Doc, j: Json): Doc
    requires ExpectsValue(d)
  {
    if d.open == [] then d.(roots := d.roots + [j])
    else d.(open := d.open[|d.open| - 1 := WithValue(Top(d), j)])
  }

  function Closed(c: Container): Json {
    match c
    case OpenArr(items) => Arr(items, [])
    case OpenObj(ms, _) => Obj(ms, [])
  }

  function Build(d: Doc, call: Call): Doc
    requires DocOk(d) && CanCall(d, call)
  {
    match call
    case BeginObject => d.(open := d.open + [OpenObj([], None)])
    case BeginArray => d.(open := d.open + [OpenArr([])])
    case EndObject => AddValue(Below(d), Closed(Top(d)))
    case EndArray => AddValue(Below(d), Closed(Top(d)))
    case Key(k) => d.(open := d.open[|d.open| - 1 := Top(d).(pending := Some(k))])
    case Leaf(j) => AddValue(d, j)
  }

  predicate Accepts(d: Doc, calls: seq<Call>)
    requires DocOk(d)
    decreases |calls|
  {
    calls == []
    || (CanCall(d, calls[0]) && DocOk(Build(d, calls[0])) && Accepts(Build(d, calls[0]), calls[1..]))
  }

  function BuildAll(d: Doc, calls: seq<Call>): (r: Doc)
    requires DocOk(d) && Accepts(d, calls)
    ensures DocOk(r)
    decreases |calls|
  {
    if calls == [] then d else BuildAll(Build(d, calls[0]), calls[1..])
  }

  // ---- their compact print ----

  function RootsText(roots: seq<Json>): bytes {
    if roots == [] then [] else RootsText(roots[..|roots| - 1]) + Text(roots[|roots| - 1])
  }

  /** The print of an open container; `child` tells that a value has been started behind it. */
  function ContainerText(c: Container, child: bool): bytes {
    match c
    case OpenArr(items) => [LBRACKET] + ItemsText(items, true) + (if child then Separator(items == []) else [])
    case OpenObj(ms, pending) =>
      [LBRACE] + MembersText(ms, true)
      + match pending
        case None => []
        case Some(k) => Separator(ms == []) + StrText(k) + [COLON]
  }

  function OpenText(open: seq<Container>, child: bool): bytes {
    if open == [] then []
    else OpenText(open[..|open| - 1], true) + ContainerText(open[|open| - 1], child)
  }

  function Print(d: Doc, child: bool): bytes { RootsText(d.roots) + OpenText(d.open, child) }

  function FrameOf(c: Container, child: bool): Frame {
    match c
    case OpenArr(_) => ArrayFrame
    case OpenObj(_, pending) => if pending.None? || child then ObjectKey else ObjectValue
  }

  predicate IsFresh(c: Container) {
    match c
    case OpenArr(items) => items == []
    case OpenObj(ms, pending) => ms == [] && pending.None?
  }

  predicate FramesMatch(frames: seq<Frame>, open: seq<Container>, child: bool) {
    |frames| == |open|
    && forall i :: 0 <= i < |open| ==> frames[i] == FrameOf(open[i], child || i < |open| - 1)
  }

  /** The one-flag writer holds the print of `d`, and its flag is right about the innermost container. */
  predicate Refines(w: Writer, d: Doc) {
    w.buf == Print(d, false) && FramesMatch(w.frames, d.open, false)
    && (d.open != [] ==> w.first == IsFresh(Top(d)))
  }

  lemma {:induction false} ItemsSnoc(items: seq<Slot>, x: Slot, first: bool)
    ensures ItemsText(items + [x], first)
         == ItemsText(items, first) + Separator(first && items == []) + SlotText(x)
    decreases |items|
  {
    if items == [] {
      assert (items + [x])[1..] == [];
    } else {
      assert (items + [x])[1..] == items[1..] + [x];
      ItemsSnoc(items[1..], x, false);
    }
  }

  lemma {:induction false} MembersSnoc(ms: seq<Member>, x: Member, first: bool)
    ensures MembersText(ms + [x], first)
         == MembersText(ms, first) + Separator(first && ms == []) + MemberText(x)
    decreases |ms|
  {
    if ms == [] {
      assert (ms + [x])[1..] == [];
    } else {
      assert (ms + [x])[1..] == ms[1..] + [x];
      MembersSnoc(ms[1..], x, false);
    }
  }

  lemma WithValueText(c: Container, j: Json)
    requires TakesValue(c)
    ensures ContainerText(WithValue(c, j), false) == ContainerText(c, true) + Text(j)
  {
    match c
    case OpenArr(items) => ArrayValueText(items, j);
    case OpenObj(ms, pending) => ObjectValueText(ms, pending.value, j);
  }

  lemma ArrayValueText(items: seq<Slot>, j: Json)
    ensures ContainerText(OpenArr(items + [Tight(j)]), false) == ContainerText(OpenArr(items), true) + Text(j)
  {
    assert SlotText(Tight(j)) == Text(j);
    ItemsSnoc(items, Tight(j), true);
    Associate([LBRACKET], ItemsText(items, true) + Separator(items == []), Text(j));
    Associate([LBRACKET], ItemsText(items, true), Separator(items == []));
  }

  lemma ObjectValueText(ms: seq<Member>, k: seq<StrUnit>, j: Json)
    ensures ContainerText(OpenObj(ms + [Pair(k, j)], None), false) == ContainerText(OpenObj(ms, Some(k)), true) + Text(j)
  {
    MembersSnoc(ms, Pair(k, j), true);
    CompactMemberText(Pair(k, j));
    Regroup([LBRACE], MembersText(ms, true), Separator(ms == []), StrText(k), [COLON], Text(j));
  }

  lemma Regroup(open: bytes, ms: bytes, sep: bytes, key: bytes, colon: bytes, j: bytes)
    ensures open + (ms + sep + (key + colon + j)) + [] == open + ms + (sep + key + colon) + j
  {
  }

  lemma AddValueText(d: Doc, j: Json)
    requires ExpectsValue(d)
    ensures Print(AddValue(d, j), false) == Print(d, true) + Text(j)
  {
    if d.open == [] {
      assert (d.roots + [j])[..|d.roots|] == d.roots;
    } else {
      assert Below(AddValue(d, j)) == Below(d);
      TopText(AddValue(d, j), false);
      TopText(d, true);
      WithValueText(Top(d), j);
      Associate(Print(Below(d), true), ContainerText(Top(d), true), Text(j));
    }
  }

  lemma PushText(d: Doc, c: Container)
    ensures Print(d.(open := d.open + [c]), false) == Print(d, true) + ContainerText(c, false)
  {
    var d' := d.(open := d.open + [c]);
    assert Below(d') == d;
    TopText(d', false);
  }

  lemma TopText(d: Doc, child: bool)
    requires d.open != []
    ensures Print(d, child) == Print(Below(d), true) + ContainerText(Top(d), child)
  {
    Associate(RootsText(d.roots), OpenText(Below(d).open, true), ContainerText(Top(d), child));
  }

  lemma BeforeValuePrints(w: Writer, d: Doc)
    requires Refines(w, d) && ExpectsValue(d)
    ensures BeforeValue(w).buf == Print(d, true) && FramesMatch(BeforeValue(w).frames, d.open, true)
  {
    if d.open != [] {
      TopText(d, false);
      TopText(d, true);
      var n := |d.open| - 1;
      assert w.frames[n] == FrameOf(d.open[n], false);
      if Top(d).OpenArr? {
        StartedText(Print(Below(d), true), Top(d).items);
      }
    }
  }

  lemma StartedText(before: bytes, items: seq<Slot>)
    ensures before + ContainerText(OpenArr(items), true)
         == before + ContainerText(OpenArr(items), false) + Separator(items == [])
  {
    assert ContainerText(OpenArr(items), false) == [LBRACKET] + ItemsText(items, true);
    Associate(before, ContainerText(OpenArr(items), false), Separator(items == []));
  }

  lemma LeafRefines(w: Writer, d: Doc, j: Json)
    requires Refines(w, d) && ExpectsValue(d)
    ensures Refines(WriteToken(w, Text(j)), AddValue(d, j))
  {
    BeforeValuePrints(w, d);
    AddValueText(d, j);
  }

  lemma OpenRefines(w: Writer, d: Doc, c: Container, bracket: byte, frame: Frame)
    requires Refines(w, d) && ExpectsValue(d)
    requires (c == OpenArr([]) && bracket == LBRACKET && frame == ArrayFrame)
          || (c == OpenObj([], None) && bracket == LBRACE && frame == ObjectKey)
    ensures Refines(Open(w, bracket, frame), d.(open := d.open + [c]))
  {
    BeforeValuePrints(w, d);
    PushText(d, c);
    assert ContainerText(c, false) == [bracket];
  }

  lemma CloseRefines(w: Writer, d: Doc, bracket: byte)
    requires Refines(w, d) && DocOk(d) && d.open != []
    requires (Top(d).OpenArr? && bracket == RBRACKET) || (Top(d).OpenObj? && Top(d).pending.None? && bracket == RBRACE)
    ensures ExpectsValue(Below(d)) && Refines(Close(w, bracket), AddValue(Below(d), Closed(Top(d))))
  {
    var j := Closed(Top(d));
    CloseFrames(w, d, bracket, j);
    TopText(d, false);
    AddValueText(Below(d), j);
    ClosedText(Top(d), bracket);
    Associate(Print(Below(d), true), ContainerText(Top(d), false), [bracket]);
  }

  lemma ClosedText(c: Container, bracket: byte)
    requires (c.OpenArr? && bracket == RBRACKET) || (c.OpenObj? && c.pending.None? && bracket == RBRACE)
    ensures ContainerText(c, false) + [bracket] == Text(Closed(c))
  {
    match c
    case OpenArr(items) => NoPad([LBRACKET] + ItemsText(items, true), [bracket]);
    case OpenObj(ms, _) => NoPad([LBRACE] + MembersText(ms, true), [bracket]);
  }

  lemma NoPad(a: bytes, b: bytes)
    ensures a + [] + b == a + b
  {
  }

  lemma CloseFrames(w: Writer, d: Doc, bracket: byte, j: Json)
    requires FramesMatch(w.frames, d.open, false) && DocOk(d) && d.open != []
    ensures ExpectsValue(Below(d)) && FramesMatch(Close(w, bracket).frames, AddValue(Below(d), j).open, false)
    ensures AddValue(Below(d), j).open != [] ==> !IsFresh(Top(AddValue(Below(d), j)))
  {
    var n := |d.open| - 1;
    assert n > 0 ==> TakesValue(d.open[n - 1]);
    assert forall i :: 0 <= i < n ==> w.frames[i] == FrameOf(d.open[i], true);
  }

  lemma KeyRefines(w: Writer, d: Doc, k: seq<StrUnit>)
    requires Refines(w, d) && DocOk(d) && CanCall(d, Key(k))
    ensures Refines(WriteKey(w, k), Build(d, Key(k)))
  {
    KeyPrints(w, d, k);
    KeyFrames(w, d, k);
  }

  lemma KeyFrames(w: Writer, d: Doc, k: seq<StrUnit>)
    requires FramesMatch(w.frames, d.open, false) && DocOk(d) && CanCall(d, Key(k))
    requires w.first == IsFresh(Top(d))
    ensures WriteKey(w, k).buf == w.buf + Separator(Top(d).members == []) + StrText(k) + [COLON]
    ensures FramesMatch(WriteKey(w, k).frames, Build(d, Key(k)).open, false) && !WriteKey(w, k).first
  {
    var n := |d.open| - 1;
    assert w.frames[n] == FrameOf(d.open[n], false);
    assert w.buf + [] == w.buf;
  }

  lemma KeyPrints(w: Writer, d: Doc, k: seq<StrUnit>)
    requires w.buf == Print(d, false) && DocOk(d) && CanCall(d, Key(k))
    ensures Print(Build(d, Key(k)), false)
         == w.buf + Separator(Top(d).members == []) + StrText(k) + [COLON]
  {
    var d' := Build(d, Key(k));
    assert Below(d') == Below(d);
    TopText(d, false);
    TopText(d', false);
    PendingText(Print(Below(d), true), Top(d).members, k);
  }

  lemma PendingText(before: bytes, ms: seq<Member>, k: seq<StrUnit>)
    ensures before + ContainerText(OpenObj(ms, Some(k)), false)
         == before + ContainerText(OpenObj(ms, None), false) + Separator(ms == []) + StrText(k) + [COLON]
  {
    var open, key := [LBRACE] + MembersText(ms, true), Separator(ms == []) + StrText(k) + [COLON];
    assert ContainerText(OpenObj(ms, None), false) == open;
    Associate(before, open, key);
    Associate(before + open, Separator(ms == []), StrText(k));
    Associate(before + open, Separator(ms == []) + StrText(k), [COLON]);
  }

  lemma StepRefines(w: Writer, d: Doc, call: Call)
    requires Refines(w, d) && DocOk(d) && CanCall(d, call)
    ensures Refines(Apply(w, call), Build(d, call))
  {
    match call
    case BeginObject => OpenRefines(w, d, OpenObj([], None), LBRACE, ObjectKey);
    case BeginArray => OpenRefines(w, d, OpenArr([]), LBRACKET, ArrayFrame);
    case EndObject => CloseRefines(w, d, RBRACE);
    case EndArray => CloseRefines(w, d, RBRACKET);
    case Key(k) => KeyRefines(w, d, k);
    case Leaf(j) => LeafRefines(w, d, j);
  }

  lemma {:induction false} RunRefines(w: Writer, d: Doc, calls: seq<Call>)
    requires Refines(w, d) && DocOk(d) && Accepts(d, calls)
    ensures Refines(Run(w, calls), BuildAll(d, calls))
    decreases |calls|
  {
    if calls != [] {
      StepRefines(w, d, calls[0]);
      RunRefines(Apply(w, calls[0]), Build(d, calls[0]), calls[1..]);
    }
  }

  /**
   One flag is enough: after any protocol-respecting sequence of calls the buffer is the
   compact print of the trees, finished and unfinished, that the calls describe.
   */
  lemma OneFlagIsEnough(calls: seq<Call>)
    requires Accepts(EMPTY_DOC, calls)
    ensures Run(FRESH, calls).buf == Print(BuildAll(EMPTY_DOC, calls), false)
  {
    RunRefines(FRESH, EMPTY_DOC, calls);
  }

  /** In particular, calls that describe one finished value leave exactly that value's text. */
  lemma FinishedText(calls: seq<Call>, j: Json)
    requires Accepts(EMPTY_DOC, calls) && BuildAll(EMPTY_DOC, calls) == Doc([j], [])
    ensures Run(FRESH, calls).buf == Text(j)
  {
    OneFlagIsEnough(calls);
    assert RootsText([j]) == RootsText([]) + Text(j);
  }
}
