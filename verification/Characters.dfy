/**
 Which bytes the codec's tests accept, said by the characters themselves: blanks, brackets,
 letters, digits, escapes. Each test elsewhere is a few comparisons of numbers; here it is
 proved to be the list of characters it is meant to be.
 */
module Characters {
  import opened Bytes
  import opened Utf8
  import opened JsonSyntax
  import opened TypeParser

  const CAPITALS := "ABCDEFGHIJKLMNOPQRSTUVWXYZ"
  const SMALL := "abcdefghijklmnopqrstuvwxyz"
  const NUMERALS := "0123456789"

  /** `c` is one of the characters of `s`. */
  predicate OneOf(c: byte, s: string) { exists i :: 0 <= i < |s| && s[i] as int == c }

  lemma LettersAt(k: nat)
    requires k < 26
    ensures CAPITALS[k] as int == 65 + k && SMALL[k] as int == 97 + k
  {
    assert forall i {:trigger CAPITALS[i]} :: 0 <= i < 26 ==> CAPITALS[i] as int == 65 + i;
    assert forall i {:trigger SMALL[i]} :: 0 <= i < 26 ==> SMALL[i] as int == 97 + i;
  }

  lemma NumeralsAt(k: nat)
    requires k < 10
    ensures NUMERALS[k] as int == 48 + k
  {
  }

  /** ASCII letters are folded, other bytes are left alone. */
  lemma CaseFolds(c: byte)
    ensures forall k :: 0 <= k < 26 && c == SMALL[k] as int ==> UpperByte(c) == CAPITALS[k] as int && LowerByte(c) == c
    ensures forall k :: 0 <= k < 26 && c == CAPITALS[k] as int ==> LowerByte(c) == SMALL[k] as int && UpperByte(c) == c
    ensures !OneOf(c, CAPITALS) && !OneOf(c, SMALL) ==> UpperByte(c) == LowerByte(c) == c
  {
    forall k | 0 <= k < 26 ensures CAPITALS[k] as int == 65 + k && SMALL[k] as int == 97 + k { LettersAt(k); }
    if 65 <= c <= 90 { assert CAPITALS[c - 65] as int == c; }
    if 97 <= c <= 122 { assert SMALL[c - 97] as int == c; }
  }

  lemma LettersAndDigits(c: byte)
    ensures IsAlpha(c) <==> OneOf(c, CAPITALS) || OneOf(c, SMALL)
    ensures IsDigit(c) <==> OneOf(c, NUMERALS)
  {
    forall k | 0 <= k < 26 ensures CAPITALS[k] as int == 65 + k && SMALL[k] as int == 97 + k { LettersAt(k); }
    forall k | 0 <= k < 10 ensures NUMERALS[k] as int == 48 + k { NumeralsAt(k); }
    if 65 <= c <= 90 { assert CAPITALS[c - 65] as int == c; }
    if 97 <= c <= 122 { assert SMALL[c - 97] as int == c; }
    if IsDigit(c) { assert NUMERALS[c - 48] as int == c; }
  }

  /** The name of a STRUCT field in a type string: letters, digits and underscores, and no digit in front. */
  lemma Identifiers(s: bytes)
    ensures IsIdentifier(s)
            <==> s != [] && !OneOf(s[0], NUMERALS)
                 && forall i :: 0 <= i < |s| ==>
                                  OneOf(s[i], CAPITALS) || OneOf(s[i], SMALL) || OneOf(s[i], NUMERALS) || s[i] == '_' as int
  {
    forall i | 0 <= i < |s|
      ensures IsAlpha(s[i]) <==> OneOf(s[i], CAPITALS) || OneOf(s[i], SMALL)
      ensures IsDigit(s[i]) <==> OneOf(s[i], NUMERALS)
    {
      LettersAndDigits(s[i]);
    }
  }

  /** Insignificant whitespace in JSON (section 2 of RFC 8259), and std::isspace in a type string. */
  lemma Blanks(c: byte)
    ensures IsSpace(c) <==> OneOf(c, " \t\n\r")
    ensures IsBlank(c) <==> OneOf(c, " \t\n\r\U{0B}\U{0C}")
  {
    var json, isspace := " \t\n\r", " \t\n\r\U{0B}\U{0C}";
    assert json[0] == ' ' && json[1] == '\t' && json[2] == '\n' && json[3] == '\r';
    assert isspace[0] == ' ' && isspace[1] == '\t' && isspace[2] == '\n' && isspace[3] == '\r';
    assert isspace[4] as int == 11 && isspace[5] as int == 12;
  }

  lemma BracketsAndCommas(c: byte)
    ensures IsBracketOrComma(c) <==> OneOf(c, "<>(),")
  {
    var marks := "<>(),";
    assert marks[0] == '<' && marks[1] == '>' && marks[2] == '(' && marks[3] == ')' && marks[4] == ',';
  }

  /** The bytes of a number token. */
  lemma NumberBytes(c: byte)
    ensures NumByte(c) <==> OneOf(c, NUMERALS) || OneOf(c, "+-.eE")
  {
    var others := "+-.eE";
    assert others[0] == '+' && others[1] == '-' && others[2] == '.' && others[3] == 'e' && others[4] == 'E';
    LettersAndDigits(c);
  }

  /** The short escapes of section 7 of RFC 8259: each letter and what it stands for. */
  lemma ShortEscapes(c: byte)
    ensures EscapeOf(c).Some? <==> OneOf(c, "\"\\/bfnrt")
    ensures forall k :: 0 <= k < 8 && c == "\"\\/bfnrt"[k] as int ==> EscapeOf(c) == Some("\"\\/\U{08}\U{0C}\n\r\t"[k] as int)
  {
    var letters, bytes := "\"\\/bfnrt", "\"\\/\U{08}\U{0C}\n\r\t";
    assert letters[0] == '\"' && letters[1] == '\\' && letters[2] == '/' && letters[3] == 'b';
    assert letters[4] == 'f' && letters[5] == 'n' && letters[6] == 'r' && letters[7] == 't';
    assert bytes[0] == '\"' && bytes[1] == '\\' && bytes[2] == '/' && bytes[3] as int == 8;
    assert bytes[4] as int == 12 && bytes[5] == '\n' && bytes[6] == '\r' && bytes[7] == '\t';
  }

  /** The hexadecimal digits, in either case. */
  lemma HexDigits(c: byte, v: nat)
    ensures IsHex(c) && HexValue(c) == v
            <==> v < 16 && (c == "0123456789abcdef"[v] as int || c == "0123456789ABCDEF"[v] as int)
  {
    var low, high := "0123456789abcdef", "0123456789ABCDEF";
    assert forall i {:trigger low[i]} :: 0 <= i < 16 ==> low[i] as int == if i < 10 then 48 + i else 87 + i;
    assert forall i {:trigger high[i]} :: 0 <= i < 16 ==> high[i] as int == if i < 10 then 48 + i else 55 + i;
  }

  /** Four hexadecimal digits are read with the most significant first. */
  lemma HexCodeReads(d3: nat, d2: nat, d1: nat, d0: nat)
    requires d3 < 16 && d2 < 16 && d1 < 16 && d0 < 16
    ensures HexCode(HexDigit(d3), HexDigit(d2), HexDigit(d1), HexDigit(d0)) == ((d3 * 16 + d2) * 16 + d1) * 16 + d0
  {
  }

  /** The words of JSON. */
  lemma JsonWords()
    ensures NULL_TEXT == Ascii("null") && TRUE_TEXT == Ascii("true") && FALSE_TEXT == Ascii("false")
  {
  }

  /** What a byte carries besides its marker bits. */
  function Payload(b: byte, marker: int): int {
    var i: int := b;
    i - marker
  }

  /** The table of section 3 of RFC 3629: the marker bits of each byte, and the code point put together from the others. */
  lemma EncodingTable(cp: nat)
    requires Scalar(cp)
    ensures var e := EncodeUtf8(cp);
            && (cp < 0x80 ==> e == [cp])
            && (0x80 <= cp < 0x800 ==> |e| == 2 && Payload(e[0], 192) * 64 + Payload(e[1], 128) == cp)
            && (0x800 <= cp < 0x10000 ==>
                  |e| == 3 && Payload(e[0], 224) * 4096 + Payload(e[1], 128) * 64 + Payload(e[2], 128) == cp)
            && (0x10000 <= cp ==>
                  |e| == 4 && Payload(e[0], 240) * 262144 + Payload(e[1], 128) * 4096 + Payload(e[2], 128) * 64
                              + Payload(e[3], 128) == cp)
            && (forall i :: 1 <= i < |e| ==> 128 <= e[i] < 192)
  {
    Quotients64(cp);
  }

  /** A byte that starts no valid UTF-8 sequence is replaced by U+FFFD. */
  lemma InvalidByteIsReplaced(s: bytes, i: nat)
    requires i < |s| && ValidateUtf8(s, i) == 0
    ensures CleanUnit(s, i) == EncodeUtf8(0xFFFD)
  {
  }
}
