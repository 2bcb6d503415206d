/**
 The request side's hand-written JSON scanner: whitespace, strings and raw values, each a
 loop over `(json, pos)` proved against the function of the same name with suffix `At`,
 and the proof that these functions read exactly the texts of `JsonSyntax`.
 */
module JsonScan {
  import opened Bytes
  import opened Utf8
  import opened JsonSyntax

  /** The outcome of a parser: a value and the position behind it, or an error. */
  datatype Parsed<+T> = Ok(value: T, next: nat) | Err

  // ---- SkipWhitespace, ConsumeChar ----

  function SkipSpace(json: bytes, pos: nat): (p: nat)
    ensures pos <= p && (pos <= |json| ==> p <= |json|)
    ensures p < |json| ==> !IsSpace(json[p])
    decreases |json| - pos
  {
    if pos < |json| && IsSpace(json[pos]) then SkipSpace(json, pos + 1) else pos
  }

  method SkipWhitespace(json: bytes, start: nat) returns (pos: nat)
    ensures pos == SkipSpace(json, start)
  {
    pos := start;
    while pos < |json|
      invariant SkipSpace(json, start) == SkipSpace(json, pos)
    {
      var c := json[pos];
      if c == SPACE || c == TAB || c == NEWLINE || c == RETURN {
        pos := pos + 1;
      } else {
        break;
      }
    }
  }

  function ConsumeAt(json: bytes, pos: nat, expected: byte): (r: Parsed<()>)
    ensures r.Ok? ==> pos < r.next <= |json|
  {
    var p := SkipSpace(json, pos);
    if p < |json| && json[p] == expected then Ok((), p + 1) else Err
  }

  method ConsumeChar(json: bytes, start: nat, expected: byte) returns (r: Parsed<()>)
    ensures r == ConsumeAt(json, start, expected)
  {
    var pos := SkipWhitespace(json, start);
    if pos >= |json| || json[pos] != expected {
      return Err;
    }
    return Ok((), pos + 1);
  }

  // ---- ParseString ----

  function Prepend(s: bytes, r: Parsed<bytes>): Parsed<bytes> {
    match r
    case Ok(v, next) => Ok(s + v, next)
    case Err => Err
  }

  predicate HexAt(json: bytes, pos: nat)
    requires pos + 4 <= |json|
  {
    IsHex(json[pos]) && IsHex(json[pos + 1]) && IsHex(json[pos + 2]) && IsHex(json[pos + 3])
  }

  /** The code point after the first `n` digits of a \u escape, None at a byte that is no hex digit. */
  function CodeSoFar(json: bytes, pos: nat, n: nat): (cp: Option<nat>)
    requires pos + 4 <= |json| && n <= 4
    ensures cp.None? ==> !HexAt(json, pos)
  {
    if n == 0 then Some(0)
    else if n == 4 then
      if HexAt(json, pos) then Some(HexCode(json[pos], json[pos + 1], json[pos + 2], json[pos + 3])) else None
    else
      var before := CodeSoFar(json, pos, n - 1);
      if before.None? || !IsHex(json[pos + n - 1]) then None
      else Some(before.value * 16 + HexValue(json[pos + n - 1]))
  }

  /** The rest of a string literal whose opening quote has been read. */
  function StringBodyAt(json: bytes, pos: nat): (r: Parsed<bytes>)
    ensures r.Ok? ==> pos < r.next <= |json|
    decreases |json| - pos
  {
    if pos >= |json| then Err
    else if json[pos] == QUOTE then Ok([], pos + 1)
    else if json[pos] == BACKSLASH then
      if pos + 1 >= |json| then Err
      else if json[pos + 1] == 117 then
        if pos + 6 > |json| || !HexAt(json, pos + 2) then Err
        else Prepend(EncodeUtf8(HexCode(json[pos + 2], json[pos + 3], json[pos + 4], json[pos + 5])),
                     StringBodyAt(json, pos + 6))
      else
        match EscapeOf(json[pos + 1])
        case Some(b) => Prepend([b], StringBodyAt(json, pos + 2))
        case None => Err
    else Prepend([json[pos]], StringBodyAt(json, pos + 1))
  }

  function StringAt(json: bytes, pos: nat): (r: Parsed<bytes>)
    ensures r.Ok? ==> pos < r.next <= |json|
  {
    var p := SkipSpace(json, pos);
    if p < |json| && json[p] == QUOTE then StringBodyAt(json, p + 1) else Err
  }

  lemma PrependPrepend(a: bytes, b: bytes, r: Parsed<bytes>)
    ensures Prepend(a, Prepend(b, r)) == Prepend(a + b, r)
  {
    if r.Ok? {
      assert a + (b + r.value) == (a + b) + r.value;
    }
  }

  method ParseHex4(json: bytes, pos: nat) returns (code: Option<nat>)
    requires pos + 4 <= |json|
    ensures code == CodeSoFar(json, pos, 4)
  {
    var cp := 0;
    var i := 0;
    while i < 4
      invariant 0 <= i <= 4
      invariant CodeSoFar(json, pos, i) == Some(cp)
    {
      if !IsHex(json[pos + i]) {
        return None;
      }
      cp := cp * 16 + HexValue(json[pos + i]);
      i := i + 1;
      assert i >= 3 ==> CodeSoFar(json, pos, 2).Some? && CodeSoFar(json, pos, 1).Some?;
    }
    return Some(cp);
  }

  method ParseString(json: bytes, start: nat) returns (r: Parsed<bytes>)
    ensures r == StringAt(json, start)
  {
    var pos := SkipWhitespace(json, start);
    if pos >= |json| || json[pos] != QUOTE {
      return Err;
    }
    pos := pos + 1;
    var out: bytes := [];
    assert StringAt(json, start) == Prepend(out, StringBodyAt(json, pos)) by {
      if StringBodyAt(json, pos).Ok? { assert [] + StringBodyAt(json, pos).value == StringBodyAt(json, pos).value; }
    }
    while pos < |json|
      invariant StringAt(json, start) == Prepend(out, StringBodyAt(json, pos))
    {
      var c := json[pos];
      if c == QUOTE {
        assert out + [] == out;
        return Ok(out, pos + 1);
      }
      if c == BACKSLASH {
        if pos + 1 >= |json| {
          return Err;
        }
        var esc := json[pos + 1];
        if esc == 117 {
          if pos + 6 > |json| {
            return Err;
          }
          var code := ParseHex4(json, pos + 2);
          if code.None? {
            return Err;
          }
          var cp := code.value;
          PrependPrepend(out, EncodeUtf8(cp), StringBodyAt(json, pos + 6));
          out := out + EncodeUtf8(cp);
          pos := pos + 6;
        } else {
          var meaning := EscapeOf(esc);
          if meaning.None? {
            return Err;
          }
          PrependPrepend(out, [meaning.value], StringBodyAt(json, pos + 2));
          out := out + [meaning.value];
          pos := pos + 2;
        }
        continue;
      }
      PrependPrepend(out, [c], StringBodyAt(json, pos + 1));
      out := out + [c];
      pos := pos + 1;
    }
    return Err;
  }

  // ---- ParseRawValue ----

  /** Position behind the quote that closes a string, scanning from inside it. */
  function StringEndAt(json: bytes, pos: nat): (r: Option<nat>)
    ensures r.Some? ==> pos < r.value <= |json|
    decreases |json| - pos
  {
    if pos >= |json| then None
    else if json[pos] == BACKSLASH && pos + 1 < |json| then StringEndAt(json, pos + 2)
    else if json[pos] == QUOTE then Some(pos + 1)
    else StringEndAt(json, pos + 1)
  }

  /** Position behind the bracket that brings the count of `open` over `close` back to 0. */
  function ContainerEndAt(json: bytes, pos: nat, depth: int, open: byte, close: byte): (r: Option<nat>)
    ensures r.Some? ==> pos < r.value <= |json|
    decreases |json| - pos
  {
    if pos >= |json| then None
    else if json[pos] == QUOTE then
      match StringEndAt(json, pos + 1)
      case None => None
      case Some(p) => ContainerEndAt(json, p, depth, open, close)
    else if json[pos] == open then ContainerEndAt(json, pos + 1, depth + 1, open, close)
    else if json[pos] == close then
      if depth == 1 then Some(pos + 1) else ContainerEndAt(json, pos + 1, depth - 1, open, close)
    else ContainerEndAt(json, pos + 1, depth, open, close)
  }

  function LiteralEndAt(json: bytes, pos: nat): (p: nat)
    ensures pos <= p && (pos <= |json| ==> p <= |json|)
    decreases |json| - pos
  {
    if Delimited(json, pos) then pos else LiteralEndAt(json, pos + 1)
  }

  function CloserOf(open: byte): byte { if open == LBRACE then RBRACE else RBRACKET }

  function RawEndAt(json: bytes, pos: nat): (r: Option<nat>)
    requires pos < |json|
    ensures r.Some? ==> pos < r.value <= |json|
  {
    if json[pos] == QUOTE then StringEndAt(json, pos + 1)
    else if json[pos] == LBRACE || json[pos] == LBRACKET then
      ContainerEndAt(json, pos, 0, json[pos], CloserOf(json[pos]))
    else if LiteralEndAt(json, pos) == pos then None
    else Some(LiteralEndAt(json, pos))
  }

  function RawValueAt(json: bytes, pos: nat): (r: Parsed<bytes>)
    ensures r.Ok? ==> pos < r.next <= |json| && 0 < |r.value| <= r.next - pos
  {
    var p := SkipSpace(json, pos);
    if p >= |json| then Err
    else
      match RawEndAt(json, p)
      case None => Err
      case Some(end) => Ok(json[p..end], end)
  }

  method ParseRawString(json: bytes, start: nat) returns (r: Parsed<bytes>)
    requires start < |json|
    ensures r == match StringEndAt(json, start + 1) case None => Err case Some(end) => Ok(json[start..end], end)
  {
    var pos := start + 1;
    while pos < |json|
      invariant start < pos
      invariant StringEndAt(json, start + 1) == StringEndAt(json, pos)
    {
      if json[pos] == BACKSLASH && pos + 1 < |json| {
        pos := pos + 2;
        continue;
      }
      if json[pos] == QUOTE {
        pos := pos + 1;
        return Ok(json[start..pos], pos);
      }
      pos := pos + 1;
    }
    return Err;
  }

  /** What the bracket count will find from inside or outside a string. */
  ghost function RestAt(json: bytes, pos: nat, depth: int, inString: bool, open: byte, close: byte): Option<nat> {
    if !inString then ContainerEndAt(json, pos, depth, open, close)
    else
      match StringEndAt(json, pos)
      case None => None
      case Some(p) => ContainerEndAt(json, p, depth, open, close)
  }

  method ParseRawContainer(json: bytes, start: nat) returns (r: Parsed<bytes>)
    requires start < |json| && (json[start] == LBRACE || json[start] == LBRACKET)
    ensures r == match ContainerEndAt(json, start, 0, json[start], CloserOf(json[start]))
                 case None => Err
                 case Some(end) => Ok(json[start..end], end)
  {
    var pos := start;
    var open := json[start];
    var close := if open == LBRACE then RBRACE else RBRACKET;
    var depth := 0;
    var inString := false;
    while pos < |json|
      invariant start <= pos
      invariant RestAt(json, start, 0, false, open, close) == RestAt(json, pos, depth, inString, open, close)
    {
      var c := json[pos];
      if inString {
        if c == BACKSLASH && pos + 1 < |json| {
          pos := pos + 2;
          continue;
        }
        if c == QUOTE {
          inString := false;
        }
        pos := pos + 1;
        continue;
      }
      if c == QUOTE {
        inString := true;
        pos := pos + 1;
        continue;
      }
      if c == open {
        depth := depth + 1;
        pos := pos + 1;
        continue;
      }
      if c == close {
        depth := depth - 1;
        pos := pos + 1;
        if depth == 0 {
          return Ok(json[start..pos], pos);
        }
        continue;
      }
      pos := pos + 1;
    }
    return Err;
  }

  method ParseRawValue(json: bytes, begin: nat) returns (r: Parsed<bytes>)
    ensures r == RawValueAt(json, begin)
  {
    var start := SkipWhitespace(json, begin);
    if start >= |json| {
      return Err;
    }
    var c := json[start];
    if c == QUOTE {
      r := ParseRawString(json, start);
      return;
    }
    if c == LBRACE || c == LBRACKET {
      r := ParseRawContainer(json, start);
      return;
    }
    var pos := start;
    while pos < |json|
      invariant start <= pos <= |json|
      invariant LiteralEndAt(json, start) == LiteralEndAt(json, pos)
    {
      var cc := json[pos];
      if cc == COMMA || cc == RBRACKET || cc == RBRACE || cc == SPACE || cc == TAB || cc == NEWLINE || cc == RETURN {
        break;
      }
      pos := pos + 1;
    }
    if pos == start {
      return Err;
    }
    return Ok(json[start..pos], pos);
  }

  // ---- the scanner reads the grammar: whitespace and strings ----

  lemma {:induction false} SkipBlank(json: bytes, pos: nat, ws: bytes)
    requires Blank(ws) && At(json, pos, ws)
    requires pos + |ws| < |json| ==> !IsSpace(json[pos + |ws|])
    ensures SkipSpace(json, pos) == pos + |ws|
    decreases |ws|
  {
    if ws != [] {
      AtByte(json, pos, ws, 0);
      assert ws == [ws[0]] + ws[1..];
      AtConcat(json, pos, [ws[0]], ws[1..]);
      SkipBlank(json, pos + 1, ws[1..]);
    }
  }

  /** The first unit of a string body, and where the rest of the body starts. */
  lemma UnitsHead(json: bytes, pos: nat, us: seq<StrUnit>) returns (next: nat)
    requires us != [] && UnitsOk(us) && At(json, pos, UnitsText(us) + [QUOTE])
    ensures At(json, next, UnitsText(us[1..]) + [QUOTE]) && next + |UnitsText(us[1..])| == pos + |UnitsText(us)|
    ensures StringBodyAt(json, pos) == Prepend(UnitValue(us[0]), StringBodyAt(json, next))
    ensures StringEndAt(json, pos) == StringEndAt(json, next)
  {
    UnitsParts(json, pos, us);
    UnitAgrees(json, pos, us[0]);
    next := pos + |UnitText(us[0])|;
  }

  lemma {:induction false} StringBodyAgrees(json: bytes, pos: nat, us: seq<StrUnit>)
    requires UnitsOk(us) && At(json, pos, UnitsText(us) + [QUOTE])
    ensures StringBodyAt(json, pos) == Ok(UnitsValue(us), pos + |UnitsText(us)| + 1)
    ensures StringEndAt(json, pos) == Some(pos + |UnitsText(us)| + 1)
    decreases |us|
  {
    if us == [] {
      AtByte(json, pos, UnitsText(us) + [QUOTE], 0);
    } else {
      var next := UnitsHead(json, pos, us);
      StringBodyAgrees(json, next, us[1..]);
    }
  }

  lemma UnitAgrees(json: bytes, pos: nat, u: StrUnit)
    requires UnitOk(u) && At(json, pos, UnitText(u))
    ensures StringBodyAt(json, pos) == Prepend(UnitValue(u), StringBodyAt(json, pos + |UnitText(u)|))
    ensures StringEndAt(json, pos) == StringEndAt(json, pos + |UnitText(u)|)
  {
    var t := UnitText(u);
    AtByte(json, pos, t, 0);
    if !u.Plain? { AtByte(json, pos, t, 1); }
    if u.Hex? {
      AtByte(json, pos, t, 2);
      AtByte(json, pos, t, 3);
      AtByte(json, pos, t, 4);
      AtByte(json, pos, t, 5);
      assert StringEndAt(json, pos) == StringEndAt(json, pos + 2) == StringEndAt(json, pos + 3);
      assert StringEndAt(json, pos + 3) == StringEndAt(json, pos + 4) == StringEndAt(json, pos + 5);
    }
  }

  /** A string literal is read back as the bytes it stands for, up to its closing quote. */
  lemma {:induction false} StringAgrees(json: bytes, pos: nat, us: seq<StrUnit>)
    requires UnitsOk(us) && At(json, pos, StrText(us))
    ensures pos < |json| && json[pos] == QUOTE
    ensures StringAt(json, pos) == Ok(UnitsValue(us), pos + |StrText(us)|)
    ensures StringEndAt(json, pos + 1) == Some(pos + |StrText(us)|)
  {
    StrParts(json, pos, us);
    StringBodyAgrees(json, pos + 1, us);
    assert SkipSpace(json, pos) == pos;
  }

  /** The unit a string body starts with. */
  function UnitAt(json: bytes, pos: nat): (u: StrUnit)
    requires StringBodyAt(json, pos).Ok? && json[pos] != QUOTE
    ensures UnitOk(u) && StringBodyAt(json, pos + |UnitText(u)|).Ok?
  {
    if json[pos] != BACKSLASH then Plain(json[pos])
    else if json[pos + 1] == 117 then Hex(json[pos + 2], json[pos + 3], json[pos + 4], json[pos + 5])
    else Esc(json[pos + 1])
  }

  /** The units a string body is read as: whatever ParseString accepts is such a literal. */
  function UnitsAt(json: bytes, pos: nat): seq<StrUnit>
    requires StringBodyAt(json, pos).Ok?
    decreases |json| - pos
  {
    if json[pos] == QUOTE then []
    else [UnitAt(json, pos)] + UnitsAt(json, pos + |UnitText(UnitAt(json, pos))|)
  }

  /** The converse of StringAgrees: nothing but a well-formed literal is accepted. */
  lemma {:induction false} StringBodyOnlyLiterals(json: bytes, pos: nat)
    requires StringBodyAt(json, pos).Ok?
    ensures UnitsOk(UnitsAt(json, pos)) && At(json, pos, UnitsText(UnitsAt(json, pos)) + [QUOTE])
    decreases |json| - pos
  {
    var us := UnitsAt(json, pos);
    if json[pos] == QUOTE {
      AtOne(json, pos, QUOTE);
      assert UnitsText(us) + [QUOTE] == [QUOTE];
    } else {
      var u := UnitAt(json, pos);
      UnitStands(json, pos);
      StringBodyOnlyLiterals(json, pos + |UnitText(u)|);
      UnitsJoin(json, pos, u, UnitsAt(json, pos + |UnitText(u)|));
    }
  }

  lemma UnitStands(json: bytes, pos: nat)
    requires StringBodyAt(json, pos).Ok? && json[pos] != QUOTE
    ensures At(json, pos, UnitText(UnitAt(json, pos)))
  {
    var t := UnitText(UnitAt(json, pos));
    forall k | Offset(k) && 0 <= k < |t| ensures json[pos + k] == t[k] {}
  }

  lemma UnitsJoin(json: bytes, pos: nat, u: StrUnit, us: seq<StrUnit>)
    requires At(json, pos, UnitText(u)) && At(json, pos + |UnitText(u)|, UnitsText(us) + [QUOTE])
    ensures At(json, pos, UnitsText([u] + us) + [QUOTE])
  {
    assert ([u] + us)[1..] == us;
    Associate(UnitText(u), UnitsText(us), [QUOTE]);
    AtConcat(json, pos, UnitText(u), UnitsText(us) + [QUOTE]);
  }

  // ---- the raw scan reads the grammar ----

  /** Bytes the bracket count does not look at. */
  predicate Neutral(s: bytes) {
    forall i :: 0 <= i < |s| ==> s[i] != QUOTE && s[i] != LBRACE && s[i] != RBRACE && s[i] != LBRACKET && s[i] != RBRACKET
  }

  predicate BracketKind(open: byte, close: byte) {
    (open == LBRACE && close == RBRACE) || (open == LBRACKET && close == RBRACKET)
  }

  lemma {:induction false} PassNeutral(json: bytes, pos: nat, s: bytes, depth: int, open: byte, close: byte)
    requires Neutral(s) && At(json, pos, s) && BracketKind(open, close)
    ensures ContainerEndAt(json, pos, depth, open, close) == ContainerEndAt(json, pos + |s|, depth, open, close)
    decreases |s|
  {
    if s != [] {
      AtByte(json, pos, s, 0);
      assert s == [s[0]] + s[1..];
      AtConcat(json, pos, [s[0]], s[1..]);
      PassNeutral(json, pos + 1, s[1..], depth, open, close);
    }
  }

  lemma {:induction false} PassValue(json: bytes, pos: nat, j: Json, depth: int, open: byte, close: byte)
    requires WellFormedJson(j) && At(json, pos, Text(j)) && BracketKind(open, close) && depth >= 1
    ensures ContainerEndAt(json, pos, depth, open, close) == ContainerEndAt(json, pos + |Text(j)|, depth, open, close)
    decreases j, 2
  {
    match j
    case Str(units) => StringAgrees(json, pos, units);
    case Arr(items, pad) => PassArr(json, pos, items, pad, depth, open, close);
    case Obj(members, pad) => PassObj(json, pos, members, pad, depth, open, close);
    case _ => PassNeutral(json, pos, Text(j), depth, open, close);
  }

  lemma {:induction false} PassArr(json: bytes, pos: nat, items: seq<Slot>, pad: bytes, depth: int, open: byte, close: byte)
    requires ItemsOk(items) && Blank(pad) && At(json, pos, Text(Arr(items, pad))) && BracketKind(open, close) && depth >= 1
    ensures ContainerEndAt(json, pos, depth, open, close)
         == ContainerEndAt(json, pos + |Text(Arr(items, pad))|, depth, open, close)
    decreases items, 6
  {
    ArrParts(json, pos, items, pad);
    var p := pos + 1 + |ItemsText(items, true)|;
    AtOne(json, p + |pad|, RBRACKET);
    var inner := if open == LBRACKET then depth + 1 else depth;
    PassItems(json, pos + 1, items, true, inner, open, close);
    PassNeutral(json, p, pad, inner, open, close);
  }

  lemma {:induction false} PassObj(json: bytes, pos: nat, members: seq<Member>, pad: bytes, depth: int, open: byte, close: byte)
    requires MembersOk(members) && Blank(pad) && At(json, pos, Text(Obj(members, pad))) && BracketKind(open, close) && depth >= 1
    ensures ContainerEndAt(json, pos, depth, open, close)
         == ContainerEndAt(json, pos + |Text(Obj(members, pad))|, depth, open, close)
    decreases members, 6
  {
    ObjParts(json, pos, members, pad);
    var p := pos + 1 + |MembersText(members, true)|;
    AtOne(json, p + |pad|, RBRACE);
    var inner := if open == LBRACE then depth + 1 else depth;
    PassMembers(json, pos + 1, members, true, inner, open, close);
    PassNeutral(json, p, pad, inner, open, close);
  }

  lemma {:induction false} PassSlot(json: bytes, pos: nat, s: Slot, depth: int, open: byte, close: byte)
    requires SlotOk(s) && At(json, pos, SlotText(s)) && BracketKind(open, close) && depth >= 1
    ensures ContainerEndAt(json, pos, depth, open, close) == ContainerEndAt(json, pos + |SlotText(s)|, depth, open, close)
    decreases s, 3
  {
    SlotParts(json, pos, s);
    PassNeutral(json, pos, s.before, depth, open, close);
    PassValue(json, pos + |s.before|, s.value, depth, open, close);
    PassNeutral(json, pos + |s.before| + |Text(s.value)|, s.after, depth, open, close);
  }

  lemma {:induction false} PassItems(json: bytes, pos: nat, items: seq<Slot>, first: bool, depth: int, open: byte, close: byte)
    requires ItemsOk(items) && At(json, pos, ItemsText(items, first)) && BracketKind(open, close) && depth >= 1
    ensures ContainerEndAt(json, pos, depth, open, close)
         == ContainerEndAt(json, pos + |ItemsText(items, first)|, depth, open, close)
    decreases items, 5
  {
    if items != [] {
      ItemsParts(json, pos, items, first);
      var p := pos + |Separator(first)|;
      PassNeutral(json, pos, Separator(first), depth, open, close);
      PassSlot(json, p, items[0], depth, open, close);
      PassItems(json, p + |SlotText(items[0])|, items[1..], false, depth, open, close);
    }
  }

  lemma PassKey(json: bytes, pos: nat, m: Member, depth: int, open: byte, close: byte) returns (next: nat)
    requires MemberOk(m) && At(json, pos, MemberText(m)) && BracketKind(open, close) && depth >= 1
    ensures At(json, next, SlotText(m.slot)) && next + |SlotText(m.slot)| == pos + |MemberText(m)|
    ensures ContainerEndAt(json, pos, depth, open, close) == ContainerEndAt(json, next, depth, open, close)
  {
    MemberParts(json, pos, m);
    var p1 := pos + |m.before|;
    var p2 := p1 + |StrText(m.key)|;
    var p3 := p2 + |m.afterKey|;
    next := p3 + 1;
    PassNeutral(json, pos, m.before, depth, open, close);
    StringAgrees(json, p1, m.key);
    PassNeutral(json, p2, m.afterKey, depth, open, close);
    PassNeutral(json, p3, [COLON], depth, open, close);
  }

  lemma {:induction false} PassMember(json: bytes, pos: nat, m: Member, depth: int, open: byte, close: byte)
    requires MemberOk(m) && At(json, pos, MemberText(m)) && BracketKind(open, close) && depth >= 1
    ensures ContainerEndAt(json, pos, depth, open, close) == ContainerEndAt(json, pos + |MemberText(m)|, depth, open, close)
    decreases m, 4
  {
    var next := PassKey(json, pos, m, depth, open, close);
    PassSlot(json, next, m.slot, depth, open, close);
  }

  /** Where the first member of a list stands, and what follows it. */
  lemma {:induction false} MembersHead(json: bytes, pos: nat, ms: seq<Member>, first: bool) returns (p: nat, q: nat)
    requires ms != [] && MembersOk(ms) && At(json, pos, MembersText(ms, first))
    ensures MemberOk(ms[0]) && At(json, p, MemberText(ms[0])) && q == p + |MemberText(ms[0])|
    ensures MembersOk(ms[1..]) && At(json, q, MembersText(ms[1..], false))
    ensures q + |MembersText(ms[1..], false)| == pos + |MembersText(ms, first)|
    ensures p == pos + |Separator(first)| && At(json, pos, Separator(first))
  {
    MembersParts(json, pos, ms, first);
    p := pos + |Separator(first)|;
    q := p + |MemberText(ms[0])|;
  }

  lemma {:induction false} PassMembers(json: bytes, pos: nat, ms: seq<Member>, first: bool, depth: int, open: byte, close: byte)
    requires MembersOk(ms) && At(json, pos, MembersText(ms, first)) && BracketKind(open, close) && depth >= 1
    ensures ContainerEndAt(json, pos, depth, open, close)
         == ContainerEndAt(json, pos + |MembersText(ms, first)|, depth, open, close)
    decreases ms, 5
  {
    if ms != [] {
      var p, q := MembersHead(json, pos, ms, first);
      PassNeutral(json, pos, Separator(first), depth, open, close);
      PassMember(json, p, ms[0], depth, open, close);
      PassMembers(json, q, ms[1..], false, depth, open, close);
    }
  }

  lemma {:induction false} PassLiteral(json: bytes, pos: nat, s: bytes)
    requires At(json, pos, s) && Delimited(json, pos + |s|)
    requires forall i :: 0 <= i < |s| ==> s[i] != COMMA && s[i] != RBRACKET && s[i] != RBRACE && !IsSpace(s[i])
    ensures LiteralEndAt(json, pos) == pos + |s|
    decreases |s|
  {
    if s != [] {
      AtByte(json, pos, s, 0);
      assert s == [s[0]] + s[1..];
      AtConcat(json, pos, [s[0]], s[1..]);
      PassLiteral(json, pos + 1, s[1..]);
    }
  }

  /** The bracket in front counts a list in, the one behind it ends the scan. */
  lemma Bracketed(json: bytes, pos: nat, p: nat, q: nat, open: byte, close: byte)
    requires BracketKind(open, close) && pos < q < |json| && json[pos] == open && json[q] == close
    requires ContainerEndAt(json, pos + 1, 1, open, close) == ContainerEndAt(json, p, 1, open, close)
    requires ContainerEndAt(json, p, 1, open, close) == ContainerEndAt(json, q, 1, open, close)
    ensures ContainerEndAt(json, pos, 0, open, close) == Some(q + 1)
  {
  }

  lemma ArrEnd(json: bytes, pos: nat, items: seq<Slot>, pad: bytes)
    requires ItemsOk(items) && Blank(pad) && At(json, pos, Text(Arr(items, pad)))
    ensures pos < |json| && json[pos] == LBRACKET
    ensures ContainerEndAt(json, pos, 0, LBRACKET, RBRACKET) == Some(pos + |Text(Arr(items, pad))|)
  {
    ArrParts(json, pos, items, pad);
    var p := pos + 1 + |ItemsText(items, true)|;
    var q := p + |pad|;
    AtOne(json, q, RBRACKET);
    PassItems(json, pos + 1, items, true, 1, LBRACKET, RBRACKET);
    PassNeutral(json, p, pad, 1, LBRACKET, RBRACKET);
    Bracketed(json, pos, p, q, LBRACKET, RBRACKET);
  }

  lemma ObjEnd(json: bytes, pos: nat, members: seq<Member>, pad: bytes)
    requires MembersOk(members) && Blank(pad) && At(json, pos, Text(Obj(members, pad)))
    ensures pos < |json| && json[pos] == LBRACE
    ensures ContainerEndAt(json, pos, 0, LBRACE, RBRACE) == Some(pos + |Text(Obj(members, pad))|)
  {
    ObjParts(json, pos, members, pad);
    var p := pos + 1 + |MembersText(members, true)|;
    var q := p + |pad|;
    AtOne(json, q, RBRACE);
    PassMembers(json, pos + 1, members, true, 1, LBRACE, RBRACE);
    PassNeutral(json, p, pad, 1, LBRACE, RBRACE);
    Bracketed(json, pos, p, q, LBRACE, RBRACE);
  }

  lemma BareEnd(json: bytes, pos: nat, j: Json)
    requires WellFormedJson(j) && Bare(j) && At(json, pos, Text(j)) && Delimited(json, pos + |Text(j)|)
    ensures LiteralEndAt(json, pos) == pos + |Text(j)|
  {
    PassLiteral(json, pos, Text(j));
  }

  lemma RawEndAgrees(json: bytes, pos: nat, j: Json)
    requires WellFormedJson(j) && At(json, pos, Text(j))
    requires Bare(j) ==> Delimited(json, pos + |Text(j)|)
    ensures pos < |json| && RawEndAt(json, pos) == Some(pos + |Text(j)|)
  {
    FirstByte(j);
    AtByte(json, pos, Text(j), 0);
    if j.Str? {
      StringAgrees(json, pos, j.units);
    } else if j.Arr? {
      ArrEnd(json, pos, j.items, j.pad);
    } else if j.Obj? {
      ObjEnd(json, pos, j.members, j.pad);
    } else {
      BareEnd(json, pos, j);
    }
  }

  /**
   The raw scan returns exactly the text of the JSON value it stands on, although it counts
   one kind of bracket only. Only a bare token needs a delimiter behind it.
   */
  lemma RawValueAgrees(json: bytes, pos: nat, j: Json)
    requires WellFormedJson(j) && At(json, pos, Text(j))
    requires Bare(j) ==> Delimited(json, pos + |Text(j)|)
    ensures RawValueAt(json, pos) == Ok(Text(j), pos + |Text(j)|)
  {
    FirstByte(j);
    AtByte(json, pos, Text(j), 0);
    RawEndAgrees(json, pos, j);
    AtSlice(json, pos, Text(j));
  }
}
