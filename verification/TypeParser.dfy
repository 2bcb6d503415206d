/**
 The parser of Mode B type strings: LIST<T>, ARRAY<T,N>, MAP<K,V>, STRUCT(name type, ...),
 DECIMAL(w,s) and the scalar names, with whitespace and keyword case free.
 */
module TypeParser {
  import opened Bytes
  import opened Types

  const MAX_NESTING := 32
  const MAX_LENGTH := 4096
  const U64 := 0x1_0000_0000_0000_0000

  // ---- characters ----

  /** std::isspace in the C locale. */
  predicate IsBlank(c: byte) { c == SPACE || 9 <= c <= 13 }

  predicate IsBracketOrComma(c: byte) { c == LESS || c == GREATER || c == LPAREN || c == RPAREN || c == COMMA }

  predicate IsAlpha(c: byte) { 65 <= c <= 90 || 97 <= c <= 122 }

  predicate StartsWith(s: bytes, prefix: bytes) { |prefix| <= |s| && s[..|prefix|] == prefix }

  function TrimLeft(s: bytes): (r: bytes)
    ensures |r| <= |s| && (r == [] || !IsBlank(r[0]))
  {
    if s != [] && IsBlank(s[0]) then TrimLeft(s[1..]) else s
  }

  function TrimRight(s: bytes): (r: bytes)
    ensures |r| <= |s| && (r == [] || !IsBlank(r[|r| - 1]))
  {
    if s != [] && IsBlank(s[|s| - 1]) then TrimRight(s[..|s| - 1]) else s
  }

  function Trim(s: bytes): bytes { TrimRight(TrimLeft(s)) }

  /** std::find(c, from). */
  function IndexOf(s: bytes, c: byte, from: nat): (r: Option<nat>)
    ensures r.Some? ==> from <= r.value < |s| && s[r.value] == c
    decreases |s| - from
  {
    if from >= |s| then None else if s[from] == c then Some(from) else IndexOf(s, c, from + 1)
  }

  /** std::find_first_of(" \t"). */
  function FirstGap(s: bytes, from: nat): (r: Option<nat>)
    ensures r.Some? ==> from <= r.value < |s|
    decreases |s| - from
  {
    if from >= |s| then None else if s[from] == SPACE || s[from] == TAB then Some(from) else FirstGap(s, from + 1)
  }

  /** std::stoul: leading blanks, a sign (a minus negates modulo 2^64), digits, and anything after them. */
  function ParseUnsigned(s: bytes): (r: Option<nat>)
    ensures r.Some? ==> r.value < U64
  {
    var t := TrimLeft(s);
    var negative := t != [] && t[0] == MINUS;
    var body := if t != [] && (t[0] == MINUS || t[0] == PLUS) then t[1..] else t;
    var n := DigitRun(body, 0);
    if n == 0 then None
    else
      var v := DigitsValue(body[..n]);
      if v >= U64 then None
      else Some(if negative then (U64 - v) % U64 else v)
  }

  // ---- whitespace ----

  /** The loop that collapses whitespace runs and drops those next to brackets and commas. */
  function Normalized(s: bytes, previous: byte): bytes
    decreases |s|
  {
    if s == [] then []
    else if IsBlank(s[0]) then
      var rest := TrimLeft(s[1..]);
      if rest != [] && !IsBracketOrComma(previous) && !IsBracketOrComma(rest[0]) then [SPACE] + Normalized(rest, SPACE)
      else Normalized(rest, previous)
    else [s[0]] + Normalized(s[1..], s[0])
  }

  /** Leading whitespace is dropped just as whitespace behind a comma is. */
  function Normalize(s: bytes): bytes { Normalized(s, COMMA) }

  method NormalizeWhitespace(input: bytes) returns (s: bytes)
    ensures s == Normalize(input)
  {
    s := [];
    var i := 0;
    ghost var left := input;
    while i < |input| && IsBlank(input[i])
      invariant i <= |input| && left == input[i..]
      invariant Normalize(input) == Normalize(left)
    {
      LeadingBlank(left);
      left := left[1..];
      i := i + 1;
    }
    while i < |input|
      invariant i <= |input| && left == input[i..]
      invariant s == [] ==> i == |input| || !IsBlank(input[i])
      invariant Normalize(input) == s + Normalized(left, if s == [] then COMMA else s[|s| - 1])
    {
      var c := input[i];
      ghost var whole, rest := Normalize(input), left[1..];
      if IsBlank(c) {
        var j := SkipBlanks(input, i + 1);
        var previousIsSpecial := s != [] && IsBracketOrComma(s[|s| - 1]);
        var nextIsSpecial := j < |input| && IsBracketOrComma(input[j]);
        left := input[j..];
        if !previousIsSpecial && !nextIsSpecial && j < |input| {
          Associate(s, [SPACE], Normalized(left, SPACE));
          s := s + [SPACE];
        }
        i := j;
      } else {
        Associate(s, [c], Normalized(rest, c));
        s := s + [c];
        left := rest;
        i := i + 1;
      }
    }
  }

  /** The end of a run of whitespace. */
  method SkipBlanks(input: bytes, start: nat) returns (j: nat)
    requires start <= |input|
    ensures start <= j <= |input| && (j < |input| ==> !IsBlank(input[j]))
    ensures TrimLeft(input[start..]) == input[j..]
  {
    j := start;
    while j < |input| && IsBlank(input[j])
      invariant start <= j <= |input|
      invariant TrimLeft(input[start..]) == TrimLeft(input[j..])
    {
      assert input[j..][1..] == input[j + 1..];
      j := j + 1;
    }
  }

  lemma LeadingBlank(s: bytes)
    requires s != [] && IsBlank(s[0])
    ensures Normalize(s) == Normalize(s[1..])
  {
    SkipLeading(s[1..]);
  }

  lemma {:induction false} SkipLeading(s: bytes)
    ensures Normalized(TrimLeft(s), COMMA) == Normalized(s, COMMA)
  {
    if s != [] && IsBlank(s[0]) { SkipLeading(s[1..]); }
  }

  lemma {:induction false} TrimLeftConcat(a: bytes, b: bytes)
    ensures TrimLeft(a + b) == if TrimLeft(a) == [] then TrimLeft(b) else TrimLeft(a) + b
    ensures TrimLeft(a) != [] ==> TrimLeft(a)[|TrimLeft(a)| - 1] == a[|a| - 1]
    ensures TrimLeft(a) == [] && a != [] ==> IsBlank(a[|a| - 1])
    decreases |a|
  {
    if a == [] {
      assert a + b == b;
    } else if IsBlank(a[0]) {
      assert (a + b)[1..] == a[1..] + b;
      TrimLeftConcat(a[1..], b);
    }
  }

  predicate AllBlank(s: bytes) { forall i :: 0 <= i < |s| ==> IsBlank(s[i]) }

  lemma {:induction false} TrimAllBlank(s: bytes)
    requires AllBlank(s)
    ensures TrimLeft(s) == []
  {
    if s != [] { TrimAllBlank(s[1..]); }
  }

  lemma PlainStep(c: byte, t: bytes, previous: byte)
    requires !IsBlank(c)
    ensures Normalized([c] + t, previous) == [c] + Normalized(t, c)
  {
    assert ([c] + t)[1..] == t;
  }

  lemma BlanksInFront(blanks: bytes, b: bytes, previous: byte)
    requires AllBlank(blanks) && (b == [] || IsBracketOrComma(b[0]) || IsBracketOrComma(previous))
    ensures Normalized(blanks + b, previous) == Normalized(b, previous)
  {
    if blanks == [] {
      assert blanks + b == b;
    } else {
      var x, more := blanks[0], blanks[1..];
      OneOff(blanks, b);
      OneBlank(x, more, b, previous);
    }
  }

  lemma OneOff(a: bytes, b: bytes)
    requires a != []
    ensures a + b == [a[0]] + (a[1..] + b)
  {
  }

  lemma OneBlank(x: byte, more: bytes, b: bytes, previous: byte)
    requires IsBlank(x) && AllBlank(more) && (b == [] || IsBracketOrComma(b[0]) || IsBracketOrComma(previous))
    ensures Normalized([x] + (more + b), previous) == Normalized(b, previous)
  {
    var t := more + b;
    assert TrimLeft(t) == TrimLeft(b) by {
      TrimAllBlank(more);
      TrimLeftConcat(more, b);
    }
    BlankStep(x, t, previous);
    BlankFirst(b, previous);
  }

  lemma BlankFirst(b: bytes, previous: byte)
    requires b == [] || IsBracketOrComma(b[0]) || IsBracketOrComma(previous)
    ensures Normalized(TrimLeft(b), previous) == Normalized(b, previous)
    ensures var rest := TrimLeft(b); rest == [] || IsBracketOrComma(previous) || IsBracketOrComma(rest[0])
  {
  }

  /** Whitespace next to a bracket, a parenthesis or a comma, or at either end, is insignificant. */
  lemma {:induction false} InsertBlanks(a: bytes, blanks: bytes, b: bytes, previous: byte)
    requires AllBlank(blanks)
    requires b == [] || IsBracketOrComma(b[0]) || IsBracketOrComma(if a == [] then previous else a[|a| - 1])
    ensures Normalized(a + blanks + b, previous) == Normalized(a + b, previous)
    decreases |a|, 1
  {
    if a == [] {
      assert a + blanks + b == blanks + b && a + b == b;
      BlanksInFront(blanks, b, previous);
    } else {
      var c, t := a[0], a[1..];
      FirstOff(c, t, a, blanks, b);
      if IsBlank(c) {
        InsertBehindBlank(c, t, blanks, b, previous);
      } else {
        PlainStep(c, t + blanks + b, previous);
        PlainStep(c, t + b, previous);
        InsertBlanks(t, blanks, b, c);
      }
    }
  }

  lemma FirstOff(c: byte, t: bytes, a: bytes, blanks: bytes, b: bytes)
    requires a != [] && c == a[0] && t == a[1..]
    ensures a + blanks + b == [c] + (t + blanks + b) == [c] + (t + (blanks + b)) && a + b == [c] + (t + b)
  {
  }

  lemma {:induction false} InsertBehindBlank(x: byte, t: bytes, blanks: bytes, b: bytes, previous: byte)
    requires AllBlank(blanks) && IsBlank(x)
    requires b == [] || IsBracketOrComma(b[0]) || IsBracketOrComma(if t == [] then x else t[|t| - 1])
    ensures Normalized([x] + (t + (blanks + b)), previous) == Normalized([x] + (t + b), previous)
    decreases |t| + 1, 0
  {
    TrimInserted(t, blanks, b);
    var rest := TrimLeft(t);
    BlankStep(x, t + (blanks + b), previous);
    BlankStep(x, t + b, previous);
    if rest != [] {
      Associate(rest, blanks, b);
      InsertBlanks(rest, blanks, b, if !IsBracketOrComma(previous) && !IsBracketOrComma(rest[0]) then SPACE else previous);
    }
  }

  lemma BlankStep(x: byte, t: bytes, previous: byte)
    requires IsBlank(x)
    ensures Normalized([x] + t, previous)
         == var rest := TrimLeft(t);
            if rest != [] && !IsBracketOrComma(previous) && !IsBracketOrComma(rest[0]) then [SPACE] + Normalized(rest, SPACE)
            else Normalized(rest, previous)
  {
    assert ([x] + t)[1..] == t;
  }

  lemma TrimInserted(t: bytes, blanks: bytes, b: bytes)
    requires AllBlank(blanks)
    ensures TrimLeft(t + (blanks + b)) == if TrimLeft(t) == [] then TrimLeft(b) else TrimLeft(t) + (blanks + b)
    ensures TrimLeft(t + b) == if TrimLeft(t) == [] then TrimLeft(b) else TrimLeft(t) + b
    ensures t != [] ==> if TrimLeft(t) == [] then IsBlank(t[|t| - 1]) else TrimLeft(t)[|TrimLeft(t)| - 1] == t[|t| - 1]
  {
    TrimLeftConcat(t, blanks + b);
    TrimLeftConcat(t, b);
    TrimAllBlank(blanks);
    TrimLeftConcat(blanks, b);
  }

  // ---- brackets ----

  function MatchAt(s: bytes, i: nat, depth: int, close: byte): (r: Option<nat>)
    ensures r.Some? ==> i <= r.value < |s| && s[r.value] == close
    decreases |s| - i
  {
    if i >= |s| then None
    else if s[i] == LPAREN || s[i] == LESS then MatchAt(s, i + 1, depth + 1, close)
    else if s[i] == RPAREN || s[i] == GREATER then
      if depth == 1 && s[i] == close then Some(i) else MatchAt(s, i + 1, depth - 1, close)
    else MatchAt(s, i + 1, depth, close)
  }

  method FindMatchingBracket(s: bytes, start: nat, close: byte) returns (r: Option<nat>)
    ensures r == MatchAt(s, start, 0, close)
  {
    var depth := 0;
    var i := start;
    while i < |s|
      invariant MatchAt(s, start, 0, close) == MatchAt(s, i, depth, close)
    {
      var c := s[i];
      if c == LPAREN || c == LESS {
        depth := depth + 1;
      } else if c == RPAREN || c == GREATER {
        depth := depth - 1;
        if depth == 0 && c == close {
          return Some(i);
        }
      }
      i := i + 1;
    }
    return None;
  }

  function CommasAt(s: bytes, i: nat, start: nat, angle: int, paren: int): (spans: seq<Span>)
    requires start <= i <= |s|
    ensures SpansOk(spans, |s|)
    decreases |s| - i
  {
    if i == |s| then
      if start < |s| then [Span(start, |s|)] else []
    else if s[i] == LESS then CommasAt(s, i + 1, start, angle + 1, paren)
    else if s[i] == GREATER then CommasAt(s, i + 1, start, angle - 1, paren)
    else if s[i] == LPAREN then CommasAt(s, i + 1, start, angle, paren + 1)
    else if s[i] == RPAREN then CommasAt(s, i + 1, start, angle, paren - 1)
    else if s[i] == COMMA && angle == 0 && paren == 0 then
      [Span(start, i)] + CommasAt(s, i + 1, i + 1, angle, paren)
    else CommasAt(s, i + 1, start, angle, paren)
  }

  /** Where a part starts and ends. */
  datatype Span = Span(from: nat, to: nat)

  predicate SpansOk(spans: seq<Span>, n: nat) { forall k :: 0 <= k < |spans| ==> spans[k].from <= spans[k].to <= n }

  /** The parts, trimmed. */
  function Cut(s: bytes, spans: seq<Span>): seq<bytes>
    requires SpansOk(spans, |s|)
  {
    if spans == [] then [] else [Trim(s[spans[0].from..spans[0].to])] + Cut(s, spans[1..])
  }

  lemma CutFirst(s: bytes, from: nat, to: nat, rest: seq<Span>)
    requires from <= to <= |s| && SpansOk(rest, |s|)
    ensures Cut(s, [Span(from, to)] + rest) == [Trim(s[from..to])] + Cut(s, rest)
  {
    assert ([Span(from, to)] + rest)[1..] == rest;
  }

  /** At a comma outside brackets the current part is cut off. */
  lemma {:induction false} CutAtComma(out: seq<bytes>, s: bytes, i: nat, start: nat, left: seq<Span>) returns (rest: seq<Span>)
    requires start <= i < |s| && s[i] == COMMA && left == CommasAt(s, i, start, 0, 0)
    ensures rest == CommasAt(s, i + 1, i + 1, 0, 0)
    ensures out + Cut(s, left) == out + [Trim(s[start..i])] + Cut(s, rest)
  {
    rest := CommasAt(s, i + 1, i + 1, 0, 0);
    assert left == [Span(start, i)] + rest;
    CutFirst(s, start, i, rest);
    Regroup(out, [Trim(s[start..i])], Cut(s, rest), Cut(s, left));
  }

  lemma Regroup(out: seq<bytes>, first: seq<bytes>, rest: seq<bytes>, all: seq<bytes>)
    requires all == first + rest
    ensures out + all == out + first + rest
  {
  }

  /** At the end what is left is the last part, unless that is empty. */
  lemma CutAtEnd(out: seq<bytes>, s: bytes, start: nat, angle: int, paren: int)
    requires start <= |s|
    ensures out + Cut(s, CommasAt(s, |s|, start, angle, paren)) == if start < |s| then out + [Trim(s[start..])] else out
  {
    assert s[start..|s|] == s[start..];
    assert [Span(start, |s|)][1..] == [];
    assert Cut(s, []) == [];
  }

  function SplitCommas(s: bytes): seq<bytes> { Cut(s, CommasAt(s, 0, 0, 0, 0)) }

  method SplitTopLevelCommas(s: bytes) returns (out: seq<bytes>)
    ensures out == SplitCommas(s)
  {
    out := [];
    var angle, paren, start, i := 0, 0, 0, 0;
    ghost var whole, left := SplitCommas(s), CommasAt(s, 0, 0, 0, 0);
    assert [] + Cut(s, left) == whole;
    while i < |s|
      invariant start <= i <= |s| && left == CommasAt(s, i, start, angle, paren)
      invariant whole == out + Cut(s, left)
    {
      var c := s[i];
      if c == LESS {
        angle := angle + 1;
      } else if c == GREATER {
        angle := angle - 1;
      } else if c == LPAREN {
        paren := paren + 1;
      } else if c == RPAREN {
        paren := paren - 1;
      } else if c == COMMA && angle == 0 && paren == 0 {
        left := CutAtComma(out, s, i, start, left);
        out := out + [Trim(s[start..i])];
        start := i + 1;
      }
      i := i + 1;
    }
    CutAtEnd(out, s, start, angle, paren);
    if start < |s| {
      out := out + [Trim(s[start..])];
    }
  }

  // ---- scalars ----

  /** The chain of names. No two of its comparisons hold together, so it may be taken in parts. */
  function ScalarNamed(s: bytes): Option<ScalarId> {
    var signed := SignedNamed(s);
    if signed.Some? then signed
    else
      var unsigned := UnsignedNamed(s);
      if unsigned.Some? then unsigned
      else
        var text := TextNamed(s);
        if text.Some? then text else TimeNamed(s)
  }

  function UnsignedNamed(s: bytes): Option<ScalarId> {
    if s == Ascii("UTINYINT") then Some(UTINYINT)
    else if s == Ascii("USMALLINT") then Some(USMALLINT)
    else if s == Ascii("UINTEGER") then Some(UINTEGER)
    else if s == Ascii("UBIGINT") then Some(UBIGINT)
    else if s == Ascii("UHUGEINT") then Some(UHUGEINT)
    else None
  }

  function SignedNamed(s: bytes): Option<ScalarId> {
    if s == Ascii("BOOLEAN") then Some(BOOLEAN)
    else if s == Ascii("TINYINT") then Some(TINYINT)
    else if s == Ascii("SMALLINT") then Some(SMALLINT)
    else if s == Ascii("INTEGER") || s == Ascii("INT") then Some(INTEGER)
    else if s == Ascii("BIGINT") then Some(BIGINT)
    else if s == Ascii("HUGEINT") then Some(HUGEINT)
    else None
  }

  function TextNamed(s: bytes): Option<ScalarId> {
    if s == Ascii("FLOAT") then Some(FLOAT)
    else if s == Ascii("DOUBLE") then Some(DOUBLE)
    else if s == Ascii("VARCHAR") || s == Ascii("STRING") then Some(VARCHAR)
    else if s == Ascii("UUID") then Some(UUID)
    else if s == Ascii("DATE") then Some(DATE)
    else if s == Ascii("INTERVAL") then Some(INTERVAL)
    else if s == Ascii("BLOB") then Some(BLOB)
    else if s == Ascii("BIT") then Some(BIT)
    else None
  }

  function TimeNamed(s: bytes): Option<ScalarId> {
    if s == Ascii("TIME") then Some(TIME)
    else if s == Ascii("TIMETZ") || s == Ascii("TIME WITH TIME ZONE") then Some(TIME_TZ)
    else if s == Ascii("TIMESTAMP") then Some(TIMESTAMP)
    else if s == Ascii("TIMESTAMP_S") then Some(TIMESTAMP_S)
    else if s == Ascii("TIMESTAMP_MS") then Some(TIMESTAMP_MS)
    else if s == Ascii("TIMESTAMP_NS") then Some(TIMESTAMP_NS)
    else if s == Ascii("TIMESTAMPTZ") || s == Ascii("TIMESTAMP WITH TIME ZONE") then Some(TIMESTAMP_TZ)
    else None
  }

  /** DECIMAL(w,s); the two numbers are truncated to a byte. */
  function ParseDecimal(s: bytes): Option<LogicalType> {
    var l := IndexOf(s, LPAREN, 0);
    if l.None? then None
    else
      var comma := IndexOf(s, COMMA, l.value + 1);
      if comma.None? then None
      else
        var r := IndexOf(s, RPAREN, comma.value + 1);
        if r.None? then None
        else
          var width := ParseUnsigned(s[l.value + 1..comma.value]);
          var scale := ParseUnsigned(s[comma.value + 1..r.value]);
          if width.None? || scale.None? then None
          else Some(Decimal(width.value % 256, scale.value % 256))
  }

  function ParseSimple(input: bytes): Option<LogicalType> {
    var s := Trim(Upper(input));
    var named := ScalarNamed(s);
    if named.Some? then Some(Scalar(named.value))
    else if StartsWith(s, Ascii("DECIMAL(")) then ParseDecimal(s)
    else None
  }

  // ---- the grammar ----

  /** The text between the bracket at `header` and the one that matches it, which must end the string. */
  function BracketedArgs(s: bytes, header: nat, open: byte, close: byte): (r: Option<bytes>)
    ensures r.Some? ==> |r.value| + header + 2 <= |s|
  {
    if |s| < header + 2 then None
    else if s[header] != open then None
    else
      var end := MatchAt(s, header, 0, close);
      if end.None? || end.value == header || !AllBlank(s[end.value + 1..]) then None
      else Some(s[header + 1..end.value])
  }

  predicate IsIdentifier(name: bytes) {
    name != [] && (IsAlpha(name[0]) || name[0] == UNDERSCORE)
    && forall i :: 0 <= i < |name| ==> IsAlpha(name[i]) || IsDigit(name[i]) || name[i] == UNDERSCORE
  }

  function ParseType(input: bytes, depth: nat): Option<LogicalType>
    decreases 33 - depth, 1, 0
  {
    if depth > MAX_NESTING || |input| > MAX_LENGTH then None
    else
      var s := Normalize(input);
      if s == [] then None
      else
        var upper := Upper(s);
        if StartsWith(upper, Ascii("LIST<")) then
          var inner := BracketedArgs(s, 4, LESS, GREATER);
          if inner.None? then None
          else
            match ParseType(inner.value, depth + 1)
            case None => None
            case Some(child) => Some(List(child))
        else if StartsWith(upper, Ascii("ARRAY<")) then
          var inner := BracketedArgs(s, 5, LESS, GREATER);
          if inner.None? then None
          else
            var parts := SplitCommas(inner.value);
            if |parts| != 2 then None
            else
              var child := ParseType(parts[0], depth + 1);
              var n := ParseUnsigned(parts[1]);
              if child.None? || n.None? || n.value == 0 then None else Some(Array(child.value, n.value))
        else if StartsWith(upper, Ascii("MAP<")) then
          var inner := BracketedArgs(s, 3, LESS, GREATER);
          if inner.None? then None
          else
            var parts := SplitCommas(inner.value);
            if |parts| != 2 then None
            else
              var key := ParseType(parts[0], depth + 1);
              var value := ParseType(parts[1], depth + 1);
              if key.None? || value.None? then None else Some(Map(key.value, value.value))
        else if StartsWith(upper, Ascii("STRUCT(")) then
          var inner := BracketedArgs(s, 6, LPAREN, RPAREN);
          if inner.None? then None
          else
            var parts := SplitCommas(inner.value);
            if parts == [] then None
            else
              match ParseFields(parts, depth)
              case None => None
              case Some(fields) => Some(Struct(fields))
        else if StartsWith(upper, Ascii("UNION(")) then None
        else ParseSimple(s)
  }

  /** One `name type` declaration of a STRUCT. */
  function ParseField(text: bytes, depth: nat): Option<Field>
    requires depth <= MAX_NESTING
    decreases 33 - depth, 0, 0
  {
    var gap := FirstGap(text, 0);
    if gap.None? then None
    else
      var name := Trim(text[..gap.value]);
      var typePart := Trim(text[gap.value + 1..]);
      if !IsIdentifier(name) then None
      else
        match ParseType(typePart, depth + 1)
        case None => None
        case Some(t) => Some(Field(name, t))
  }

  function ParseFields(texts: seq<bytes>, depth: nat): Option<seq<Field>>
    requires depth <= MAX_NESTING
    decreases 33 - depth, 0, 1 + |texts|
  {
    if texts == [] then Some([])
    else
      match ParseField(texts[0], depth)
      case None => None
      case Some(f) =>
        match ParseFields(texts[1..], depth)
        case None => None
        case Some(fs) => Some([f] + fs)
  }

  method ParseBracketedArgs(s: bytes, header: nat, open: byte, close: byte) returns (r: Option<bytes>)
    requires (open == LESS && close == GREATER) || (open == LPAREN && close == RPAREN)
    ensures r == BracketedArgs(s, header, open, close)
  {
    if |s| < header + 2 {
      return None;
    }
    if s[header] != open {
      return None;
    }
    var end := FindMatchingBracket(s, header, close);
    if end.None? {
      return None;
    }
    var after := end.value + 1;
    while after < |s| && IsBlank(s[after])
      invariant end.value < after <= |s|
      invariant forall k :: end.value < k < after ==> IsBlank(s[k])
    {
      after := after + 1;
    }
    if after != |s| {
      assert IsBlank(s[end.value + 1..][after - end.value - 1]) == IsBlank(s[after]);
      return None;
    }
    return Some(s[header + 1..end.value]);
  }

  method ParseLogicalType(input: bytes, depth: nat) returns (out: Option<LogicalType>)
    ensures out == ParseType(input, depth)
    decreases 33 - depth
  {
    if depth > MAX_NESTING {
      return None;
    }
    if |input| > MAX_LENGTH {
      return None;
    }
    var s := NormalizeWhitespace(input);
    if s == [] {
      return None;
    }
    var upper := Upper(s);
    if StartsWith(upper, Ascii("LIST<")) {
      var inner := ParseBracketedArgs(s, 4, LESS, GREATER);
      if inner.None? {
        return None;
      }
      var child := ParseLogicalType(inner.value, depth + 1);
      return if child.None? then None else Some(List(child.value));
    }
    if StartsWith(upper, Ascii("ARRAY<")) {
      var inner := ParseBracketedArgs(s, 5, LESS, GREATER);
      if inner.None? {
        return None;
      }
      var parts := SplitTopLevelCommas(inner.value);
      if |parts| != 2 {
        return None;
      }
      var child := ParseLogicalType(parts[0], depth + 1);
      if child.None? {
        return None;
      }
      var n := ParseUnsigned(parts[1]);
      return if n.None? || n.value == 0 then None else Some(Array(child.value, n.value));
    }
    if StartsWith(upper, Ascii("MAP<")) {
      var inner := ParseBracketedArgs(s, 3, LESS, GREATER);
      if inner.None? {
        return None;
      }
      var parts := SplitTopLevelCommas(inner.value);
      if |parts| != 2 {
        return None;
      }
      var key := ParseLogicalType(parts[0], depth + 1);
      if key.None? {
        return None;
      }
      var value := ParseLogicalType(parts[1], depth + 1);
      return if value.None? then None else Some(Map(key.value, value.value));
    }
    if StartsWith(upper, Ascii("STRUCT(")) {
      var inner := ParseBracketedArgs(s, 6, LPAREN, RPAREN);
      if inner.None? {
        return None;
      }
      var parts := SplitTopLevelCommas(inner.value);
      if parts == [] {
        return None;
      }
      var fields := ParseFieldList(parts, depth);
      return if fields.None? then None else Some(Struct(fields.value));
    }
    if StartsWith(upper, Ascii("UNION(")) {
      return None;
    }
    return ParseSimple(s);
  }

  method ParseFieldList(texts: seq<bytes>, depth: nat) returns (out: Option<seq<Field>>)
    requires depth <= MAX_NESTING
    ensures out == ParseFields(texts, depth)
    decreases 33 - depth, 0
  {
    var fields: seq<Field> := [];
    var i := 0;
    ghost var left := texts;
    NoFields(ParseFields(texts, depth));
    while i < |texts|
      invariant 0 <= i <= |texts| && left == texts[i..]
      invariant ParseFields(texts, depth) == WithFields(fields, ParseFields(left, depth))
    {
      var text := texts[i];
      var gap := FirstGap(text, 0);
      if gap.None? {
        return None;
      }
      var name := Trim(text[..gap.value]);
      var typePart := Trim(text[gap.value + 1..]);
      if !IsIdentifier(name) {
        return None;
      }
      var t := ParseLogicalType(typePart, depth + 1);
      if t.None? {
        return None;
      }
      left := left[1..];
      MoveField(fields, Field(name, t.value), ParseFields(left, depth));
      fields := fields + [Field(name, t.value)];
      i := i + 1;
    }
    assert fields + [] == fields;
    return Some(fields);
  }

  lemma NoFields(rest: Option<seq<Field>>)
    ensures WithFields([], rest) == rest
  {
    if rest.Some? { assert [] + rest.value == rest.value; }
  }

  lemma MoveField(fields: seq<Field>, f: Field, rest: Option<seq<Field>>)
    ensures WithFields(fields, WithFields([f], rest)) == WithFields(fields + [f], rest)
  {
    if rest.Some? { assert fields + ([f] + rest.value) == fields + [f] + rest.value; }
  }

  ghost function WithFields(fields: seq<Field>, rest: Option<seq<Field>>): Option<seq<Field>> {
    match rest
    case None => None
    case Some(fs) => Some(fields + fs)
  }
}
