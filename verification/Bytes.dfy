/**
 Byte strings, as the server's std::string holds them, with the few operations the
 codec needs: occurrence of a text at a position, substring search, ASCII case folding
 and decimal numerals.
 */
module Bytes {

  type byte = b: int | 0 <= b < 256
  type bytes = seq<byte>

  datatype Option<+T> = None | Some(value: T)

  const TAB: byte := 9
  const NEWLINE: byte := 10
  const RETURN: byte := 13
  const SPACE: byte := 32
  const QUOTE: byte := 34
  const LPAREN: byte := 40
  const RPAREN: byte := 41
  const PLUS: byte := 43
  const COMMA: byte := 44
  const MINUS: byte := 45
  const DOT: byte := 46
  const ZERO: byte := 48
  const NINE: byte := 57
  const COLON: byte := 58
  const LESS: byte := 60
  const GREATER: byte := 62
  const LBRACKET: byte := 91
  const BACKSLASH: byte := 92
  const RBRACKET: byte := 93
  const UNDERSCORE: byte := 95
  const LBRACE: byte := 123
  const RBRACE: byte := 125

  /** The bytes of an ASCII literal. */
  function Ascii(s: string): (r: bytes)
    ensures |r| == |s|
    ensures forall i :: 0 <= i < |s| ==> r[i] == s[i] as int % 256
  {
    seq(|s|, i requires 0 <= i < |s| => s[i] as int % 256)
  }

  /** Names an offset. The solver looks into an occurrence only at offsets that a proof names. */
  predicate Offset(k: int) { true }

  /** `text` stands in `json` at position `pos`. */
  predicate At(json: bytes, pos: nat, text: bytes) {
    pos + |text| <= |json| && forall k {:trigger Offset(k)} :: Offset(k) && 0 <= k < |text| ==> json[pos + k] == text[k]
  }

  lemma AtByte(json: bytes, pos: nat, text: bytes, k: nat)
    requires At(json, pos, text) && k < |text|
    ensures pos + k < |json| && json[pos + k] == text[k]
  {
    assert Offset(k);
  }

  lemma AtSlice(json: bytes, pos: nat, text: bytes)
    ensures At(json, pos, text) <==> pos + |text| <= |json| && json[pos..pos + |text|] == text
  {
    if At(json, pos, text) {
      forall k | 0 <= k < |text| ensures json[pos..pos + |text|][k] == text[k] { AtByte(json, pos, text, k); }
    }
    if pos + |text| <= |json| && json[pos..pos + |text|] == text {
      forall k | 0 <= k < |text| ensures json[pos + k] == text[k] {
        assert json[pos..pos + |text|][k] == json[pos + k];
      }
    }
  }

  lemma AtConcat(json: bytes, pos: nat, a: bytes, b: bytes)
    ensures At(json, pos, a + b) <==> At(json, pos, a) && At(json, pos + |a|, b)
  {
    if At(json, pos, a + b) {
      forall k | 0 <= k < |b| ensures json[pos + |a| + k] == b[k] { AtByte(json, pos, a + b, |a| + k); }
      forall k | 0 <= k < |a| ensures json[pos + k] == a[k] { AtByte(json, pos, a + b, k); }
    }
    if At(json, pos, a) && At(json, pos + |a|, b) {
      forall k | 0 <= k < |a + b| ensures json[pos + k] == (a + b)[k] {
        if k >= |a| { AtByte(json, pos + |a|, b, k - |a|); } else { AtByte(json, pos, a, k); }
      }
    }
  }

  lemma Associate(a: bytes, b: bytes, c: bytes)
    ensures a + b + c == a + (b + c)
  {
  }

  lemma AtConcat3(json: bytes, pos: nat, a: bytes, b: bytes, c: bytes)
    requires At(json, pos, a + b + c)
    ensures At(json, pos, a) && At(json, pos + |a|, b) && At(json, pos + |a| + |b|, c)
  {
    AtConcat(json, pos, a + b, c);
    AtConcat(json, pos, a, b);
  }

  lemma AtConcat4(json: bytes, pos: nat, a: bytes, b: bytes, c: bytes, d: bytes)
    requires At(json, pos, a + b + c + d)
    ensures At(json, pos, a) && At(json, pos + |a|, b) && At(json, pos + |a| + |b|, c)
    ensures At(json, pos + |a| + |b| + |c|, d)
  {
    AtConcat(json, pos, a + b + c, d);
    AtConcat3(json, pos, a, b, c);
  }

  lemma AtOne(json: bytes, pos: nat, b: byte)
    ensures At(json, pos, [b]) <==> pos < |json| && json[pos] == b
  {
    if At(json, pos, [b]) { AtByte(json, pos, [b], 0); }
  }

  /** `needle` occurs in `s` at `i` or later. */
  predicate OccursFrom(s: bytes, needle: bytes, i: nat)
    requires i <= |s|
    decreases |s| - i
  {
    At(s, i, needle) || (i < |s| && OccursFrom(s, needle, i + 1))
  }

  /** `std::string::find(needle) != npos`. */
  predicate Contains(s: bytes, needle: bytes) { OccursFrom(s, needle, 0) }

  lemma {:induction false} OccursSomewhere(s: bytes, needle: bytes, i: nat)
    requires i <= |s|
    ensures OccursFrom(s, needle, i) <==> exists k: nat :: i <= k && At(s, k, needle)
    decreases |s| - i
  {
    if i < |s| { OccursSomewhere(s, needle, i + 1); }
  }

  lemma ContainsExact(s: bytes, needle: bytes)
    ensures Contains(s, needle) <==> exists k: nat :: At(s, k, needle)
  {
    OccursSomewhere(s, needle, 0);
  }

  /** The search loop behind `Contains`. */
  method Find(s: bytes, needle: bytes) returns (found: bool)
    ensures found <==> Contains(s, needle)
  {
    var i := 0;
    while i + |needle| <= |s|
      invariant i <= |s|
      invariant Contains(s, needle) <==> OccursFrom(s, needle, i)
    {
      AtSlice(s, i, needle);
      if s[i..i + |needle|] == needle {
        return true;
      }
      if i == |s| {
        return false;
      }
      i := i + 1;
    }
    OccursSomewhere(s, needle, i);
    return false;
  }

  // ---- ASCII case ----

  function UpperByte(b: byte): byte {
    if 97 <= b <= 122 then b - 32 else b
  }

  function LowerByte(b: byte): byte {
    if 65 <= b <= 90 then b + 32 else b
  }

  function Upper(s: bytes): (r: bytes)
    ensures |r| == |s| && forall i :: 0 <= i < |s| ==> r[i] == UpperByte(s[i])
  {
    seq(|s|, i requires 0 <= i < |s| => UpperByte(s[i]))
  }

  function Lower(s: bytes): (r: bytes)
    ensures |r| == |s| && forall i :: 0 <= i < |s| ==> r[i] == LowerByte(s[i])
  {
    seq(|s|, i requires 0 <= i < |s| => LowerByte(s[i]))
  }

  // ---- decimal numerals ----

  predicate IsDigit(b: byte) { ZERO <= b <= NINE }

  /** The decimal numeral of a natural number, as `%llu` prints it. */
  function Digits(n: nat): (r: bytes)
    ensures |r| > 0 && forall i :: 0 <= i < |r| ==> IsDigit(r[i])
    ensures n > 0 ==> r[0] != ZERO
  {
    if n < 10 then [ZERO + n] else Digits(n / 10) + [ZERO + n % 10]
  }

  /** The decimal numeral of an integer, as `%lld` prints it. */
  function Decimal(n: int): (r: bytes)
    ensures |r| > 0 && (IsDigit(r[0]) || r[0] == MINUS)
    ensures forall i :: 0 <= i < |r| ==> IsDigit(r[i]) || r[i] == MINUS
  {
    if n < 0 then [MINUS] + Digits(-n) else Digits(n)
  }

  /** Length of the longest run of digits of `s` from `i`. */
  function DigitRun(s: bytes, i: nat): (r: nat)
    requires i <= |s|
    ensures i + r <= |s|
    decreases |s| - i
  {
    if i < |s| && IsDigit(s[i]) then 1 + DigitRun(s, i + 1) else 0
  }

  function DigitValue(b: byte): nat { if IsDigit(b) then (b as int) - 48 else 0 }

  /** The number a run of digits denotes. */
  function DigitsValue(s: bytes): nat {
    if s == [] then 0 else 10 * DigitsValue(s[..|s| - 1]) + DigitValue(s[|s| - 1])
  }

  lemma {:induction false} DigitsRoundTrip(n: nat)
    ensures DigitsValue(Digits(n)) == n
  {
    var d := Digits(n);
    if n < 10 {
      assert d[..|d| - 1] == [];
    } else {
      assert d[..|d| - 1] == Digits(n / 10);
      DigitsRoundTrip(n / 10);
    }
  }
}
