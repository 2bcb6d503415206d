/**
 base64url without padding (section 5 of RFC 4648). The decoder shifts every symbol into a
 32-bit buffer that is never cleared and wraps; it is proved to read what a decoder that keeps
 only the pending bits reads, and to undo the encoder.
 */
module Base64Url {
  import opened Bytes
  import opened Characters

  const PAD: byte := 61
  const U32 := 0x1_0000_0000

  /** The alphabet A-Z a-z 0-9 - _. */
  function Symbol(v: nat): byte
    requires v < 64
  {
    if v < 26 then 65 + v
    else if v < 52 then 71 + v
    else if v < 62 then v - 4
    else if v == 62 then 45
    else 95
  }

  /** The reverse table; None is 0xFF. */
  function Reverse(c: byte): (v: Option<nat>)
    ensures v.Some? ==> v.value < 64 && Symbol(v.value) == c
  {
    if 65 <= c <= 90 then Some(c - 65)
    else if 97 <= c <= 122 then Some(c - 71)
    else if 48 <= c <= 57 then Some(c + 4)
    else if c == 45 then Some(62)
    else if c == 95 then Some(63)
    else None
  }

  lemma SymbolRoundTrip(v: nat)
    requires v < 64
    ensures Reverse(Symbol(v)) == Some(v) && Symbol(v) != PAD && Symbol(v) != DOT
  {
  }

  // ---- encoding ----

  /** The four symbols of a 24-bit group; (v >> 18) & 0x3F is written as a quotient and a remainder. */
  function GroupSymbols(v: nat): seq<byte>
    requires v < 0x100_0000
  {
    [Symbol(v / 262144 % 64), Symbol(v / 4096 % 64), Symbol(v / 64 % 64), Symbol(v % 64)]
  }

  function Group(b0: byte, b1: byte, b2: byte): (v: nat)
    ensures v < 0x100_0000
  {
    b0 * 65536 + b1 * 256 + b2
  }

  function Encode(s: bytes): bytes {
    if s == [] then []
    else if |s| == 1 then GroupSymbols(Group(s[0], 0, 0))[..2]
    else if |s| == 2 then GroupSymbols(Group(s[0], s[1], 0))[..3]
    else GroupSymbols(Group(s[0], s[1], s[2])) + Encode(s[3..])
  }

  method Base64UrlEncode(s: bytes) returns (out: bytes)
    ensures out == Encode(s)
  {
    out := [];
    var i := 0;
    assert s[0..] == s;
    while i + 3 <= |s|
      invariant i <= |s| && Encode(s) == out + Encode(s[i..])
    {
      var v := Group(s[i], s[i + 1], s[i + 2]);
      assert s[i..][3..] == s[i + 3..];
      assert out + (GroupSymbols(v) + Encode(s[i + 3..])) == out + GroupSymbols(v) + Encode(s[i + 3..]);
      out := out + GroupSymbols(v);
      i := i + 3;
    }
    var rem := |s| - i;
    if rem == 1 {
      out := out + GroupSymbols(Group(s[i], 0, 0))[..2];
    } else if rem == 2 {
      out := out + GroupSymbols(Group(s[i], s[i + 1], 0))[..3];
    } else {
      assert s[i..] == [];
    }
  }

  // ---- decoding ----

  function StripPad(s: bytes): bytes {
    if s != [] && s[|s| - 1] == PAD then StripPad(s[..|s| - 1]) else s
  }

  function Pow2(bits: nat): (p: nat)
    requires bits <= 6
    ensures p > 0
  {
    if bits == 0 then 1 else if bits == 2 then 4 else if bits == 4 then 16 else 64
  }

  predicate PendingBits(bits: nat) { bits == 0 || bits == 2 || bits == 4 || bits == 6 }

  function Prepend(b: byte, r: Option<bytes>): Option<bytes> {
    if r.None? then None else Some([b] + r.value)
  }

  /** The decode loop: `buffer` is what an unsigned 32-bit variable holds. */
  function DecodeWrapped(e: bytes, buffer: nat, bits: nat): Option<bytes>
    requires buffer < U32 && PendingBits(bits)
  {
    if e == [] then Some([])
    else
      match Reverse(e[0])
      case None => None
      case Some(v) =>
        var shifted := (buffer * 64 + v) % U32;
        if bits + 6 >= 8 then Prepend(shifted / Pow2(bits - 2) % 256, DecodeWrapped(e[1..], shifted, bits - 2))
        else DecodeWrapped(e[1..], shifted, bits + 6)
  }

  function Decode(s: bytes): Option<bytes> { DecodeWrapped(StripPad(s), 0, 0) }

  method Base64UrlDecode(encoded: bytes) returns (r: Option<bytes>)
    ensures r == Decode(encoded)
  {
    var end := |encoded|;
    assert encoded[..end] == encoded;
    while end > 0 && encoded[end - 1] == PAD
      invariant 0 <= end <= |encoded| && StripPad(encoded) == StripPad(encoded[..end])
    {
      assert encoded[..end][..end - 1] == encoded[..end - 1];
      end := end - 1;
    }
    ghost var e := encoded[..end];
    var out: bytes := [];
    var buffer, bits, i := 0, 0, 0;
    assert e[0..] == e;
    Extended([], DecodeWrapped(e, 0, 0));
    while i < end
      invariant 0 <= i <= end && 0 <= buffer < U32 && PendingBits(bits)
      invariant Decode(encoded) == Extend(out, DecodeWrapped(e[i..], buffer, bits))
    {
      var v := Reverse(encoded[i]);
      assert e[i..][0] == encoded[i] && e[i..][1..] == e[i + 1..];
      if v.None? {
        return None;
      }
      buffer := (buffer * 64 + v.value) % U32;
      bits := bits + 6;
      if bits >= 8 {
        bits := bits - 8;
        var b: byte := buffer / Pow2(bits) % 256;
        Moved(out, b, DecodeWrapped(e[i + 1..], buffer, bits));
        out := out + [b];
      }
      i := i + 1;
    }
    assert e[i..] == [] && out + [] == out;
    return Some(out);
  }

  ghost function Extend(out: bytes, r: Option<bytes>): Option<bytes> { if r.None? then None else Some(out + r.value) }

  lemma Extended(out: bytes, r: Option<bytes>)
    ensures Extend([], r) == r
  {
    if r.Some? { assert [] + r.value == r.value; }
  }

  lemma Moved(out: bytes, b: byte, r: Option<bytes>)
    ensures Extend(out, Prepend(b, r)) == Extend(out + [b], r)
  {
    if r.Some? { assert out + ([b] + r.value) == out + [b] + r.value; }
  }

  // ---- the wrapping buffer does not matter ----

  /** The decoder that keeps only the bits it still needs. */
  function DecodePending(e: bytes, pending: nat, bits: nat): Option<bytes>
    requires PendingBits(bits) && pending < Pow2(bits)
  {
    if e == [] then Some([])
    else
      match Reverse(e[0])
      case None => None
      case Some(v) =>
        var shifted := pending * 64 + v;
        if bits == 0 then DecodePending(e[1..], shifted, 6)
        else Prepend(TopByte(shifted, bits - 2), DecodePending(e[1..], shifted % Pow2(bits - 2), bits - 2))
  }

  function TopByte(n: nat, bits: nat): byte
    requires bits <= 6
  {
    n / Pow2(bits) % 256
  }

  lemma ModOfMod(x: nat, a: nat, b: nat)
    requires a > 0 && b > 0
    ensures x % (a * b) % a == x % a
  {
    var q, r := x / (a * b), x % (a * b);
    assert x == a * (b * q) + r by { assert (a * b) * q == a * (b * q); }
    AddMultiple(r, a, b * q);
  }

  lemma AddMultiple(r: nat, a: nat, k: nat)
    requires a > 0
    ensures (a * k + r) % a == r % a
  {
    var q, m := r / a, r % a;
    assert a * k + r == a * (k + q) + m;
    UniqueRemainder(a * k + r, a, k + q, m);
  }

  lemma UniqueRemainder(x: nat, a: nat, q: nat, m: nat)
    requires a > 0 && x == a * q + m && m < a
    ensures x % a == m && x / a == q
  {
    var q', m' := x / a, x % a;
    assert a * (q' - q) == m - m';
    if q' != q { NonzeroMultiple(a, q' - q); }
  }

  lemma NonzeroMultiple(a: int, k: int)
    requires a > 0 && k != 0
    ensures a * k >= a || a * k <= -a
  {
    if k > 0 { assert a * (k - 1) >= 0; } else { assert a * (-k - 1) >= 0; }
  }

  /** Wrapping at 2^32 and dropping all but the pending bits leave the same low bits. */
  lemma ShiftKeepsLowBits(buffer: nat, pending: nat, bits: nat, v: nat)
    requires buffer < U32 && PendingBits(bits) && pending == buffer % Pow2(bits) && v < 64
    ensures (buffer * 64 + v) % U32 % (Pow2(bits) * 64) == pending * 64 + v
  {
    var x, p := buffer * 64 + v, Pow2(bits);
    assert U32 == (p * 64) * (U32 / (p * 64));
    ModOfMod(x, p * 64, U32 / (p * 64));
    ShiftedRemainder(buffer, p, v);
  }

  lemma ShiftedRemainder(buffer: nat, p: nat, v: nat)
    requires p > 0 && v < 64
    ensures (buffer * 64 + v) % (p * 64) == buffer % p * 64 + v
  {
    var q, r := buffer / p, buffer % p;
    assert buffer == p * q + r;
    assert buffer * 64 + v == p * 64 * q + (r * 64 + v) by { assert p * q * 64 == p * 64 * q; }
    UniqueRemainder(buffer * 64 + v, p * 64, q, r * 64 + v);
  }

  /** A byte above the pending bits only depends on the low bits. */
  lemma LowBitsDecide(wrapped: nat, shifted: nat, bits: nat)
    requires bits == 0 || bits == 2 || bits == 4
    requires shifted == wrapped % (256 * Pow2(bits))
    ensures wrapped / Pow2(bits) % 256 == TopByte(shifted, bits) && wrapped % Pow2(bits) == shifted % Pow2(bits)
  {
    var p := Pow2(bits);
    ModOfMod(wrapped, p, 256);
    var q := wrapped / (256 * p);
    assert wrapped == 256 * p * q + shifted;
    UniqueRemainder(shifted, p, shifted / p, shifted % p);
    assert wrapped == p * (256 * q + shifted / p) + shifted % p by { assert p * (256 * q) == 256 * p * q; }
    UniqueRemainder(wrapped, p, 256 * q + shifted / p, shifted % p);
    AddMultiple(shifted / p, 256, q);
  }

  lemma {:induction false} WrapIsHarmless(e: bytes, buffer: nat, bits: nat)
    requires buffer < U32 && PendingBits(bits)
    ensures DecodeWrapped(e, buffer, bits) == DecodePending(e, buffer % Pow2(bits), bits)
    decreases |e|
  {
    if e != [] && Reverse(e[0]).Some? {
      var v, pending := Reverse(e[0]).value, buffer % Pow2(bits);
      var wrapped := (buffer * 64 + v) % U32;
      ShiftKeepsLowBits(buffer, pending, bits, v);
      if bits == 0 {
        WrapIsHarmless(e[1..], wrapped, 6);
      } else {
        LowBitsDecide(wrapped, pending * 64 + v, bits - 2);
        WrapIsHarmless(e[1..], wrapped, bits - 2);
      }
    }
  }

  // ---- the round trip ----

  predicate InAlphabet(e: bytes) { forall i :: 0 <= i < |e| ==> Reverse(e[i]).Some? }

  lemma {:induction false} EncodeInAlphabet(s: bytes)
    ensures InAlphabet(Encode(s))
  {
    if |s| >= 3 { EncodeInAlphabet(s[3..]); }
  }

  /** What an encoding never contains. */
  lemma EncodeHasNoDot(s: bytes)
    ensures forall i :: 0 <= i < |Encode(s)| ==> Encode(s)[i] != DOT && Encode(s)[i] != PAD
  {
    EncodeInAlphabet(s);
    forall i | 0 <= i < |Encode(s)| ensures Encode(s)[i] != DOT && Encode(s)[i] != PAD {
      assert Reverse(Encode(s)[i]).Some?;
      SymbolRoundTrip(Reverse(Encode(s)[i]).value);
    }
  }

  lemma PendingStep(e: bytes, pending: nat, bits: nat, v: nat)
    requires PendingBits(bits) && pending < Pow2(bits) && e != [] && v < 64 && e[0] == Symbol(v)
    ensures var shifted := pending * 64 + v;
            DecodePending(e, pending, bits)
            == if bits == 0 then DecodePending(e[1..], shifted, 6)
               else Prepend(TopByte(shifted, bits - 2), DecodePending(e[1..], shifted % Pow2(bits - 2), bits - 2))
  {
    SymbolRoundTrip(v);
  }

  /** Four symbols, with the pending bits between them. */
  lemma FourSymbols(e: bytes, rest: bytes, v0: nat, v1: nat, v2: nat, v3: nat, p2: nat, p3: nat, b0: byte, b1: byte, b2: byte)
    requires v0 < 64 && v1 < 64 && v2 < 64 && v3 < 64 && p2 < 16 && p3 < 4
    requires e == [Symbol(v0), Symbol(v1), Symbol(v2), Symbol(v3)] + rest
    requires TopByte(v0 * 64 + v1, 4) == b0 && (v0 * 64 + v1) % 16 == p2
    requires TopByte(p2 * 64 + v2, 2) == b1 && (p2 * 64 + v2) % 4 == p3
    requires TopByte(p3 * 64 + v3, 0) == b2
    ensures DecodePending(e, 0, 0) == Prepend(b0, Prepend(b1, Prepend(b2, DecodePending(rest, 0, 0))))
  {
    PendingStep(e, 0, 0, v0);
    PendingStep(e[1..], v0, 6, v1);
    PendingStep(e[1..][1..], p2, 4, v2);
    PendingStep(e[1..][1..][1..], p3, 2, v3);
    assert e[1..][1..][1..][1..] == rest;
  }

  /** Four symbols give back the three bytes of their group. */
  lemma GroupDecodes(b0: byte, b1: byte, b2: byte, rest: bytes)
    ensures DecodePending(GroupSymbols(Group(b0, b1, b2)) + rest, 0, 0)
         == Prepend(b0, Prepend(b1, Prepend(b2, DecodePending(rest, 0, 0))))
  {
    var v0, v1, v2, v3, p2, p3 := GroupValues(b0, b1, b2);
    FourSymbols(GroupSymbols(Group(b0, b1, b2)) + rest, rest, v0, v1, v2, v3, p2, p3, b0, b1, b2);
  }

  lemma GroupValues(b0: byte, b1: byte, b2: byte) returns (v0: nat, v1: nat, v2: nat, v3: nat, p2: nat, p3: nat)
    ensures v0 < 64 && v1 < 64 && v2 < 64 && v3 < 64 && p2 < 16 && p3 < 4
    ensures GroupSymbols(Group(b0, b1, b2)) == [Symbol(v0), Symbol(v1), Symbol(v2), Symbol(v3)]
    ensures TopByte(v0 * 64 + v1, 4) == b0 && (v0 * 64 + v1) % 16 == p2
    ensures TopByte(p2 * 64 + v2, 2) == b1 && (p2 * 64 + v2) % 4 == p3
    ensures TopByte(p3 * 64 + v3, 0) == b2
  {
    p2, p3 := b1 / 16, b2 / 64;
    v0, v1, v2, v3 := b0 / 4, b0 % 4 * 16 + b1 / 16, b1 % 16 * 4 + b2 / 64, b2 % 64;
    var v := Group(b0, b1, b2);
    assert v == 262144 * v0 + (4096 * v1 + (64 * v2 + v3));
    GroupQuotients(v, v0, v1, v2, v3);
    ByteParts(b0, b1, b2);
  }

  /** The 6-bit digits of a 24-bit number. */
  lemma GroupQuotients(v: nat, v0: nat, v1: nat, v2: nat, v3: nat)
    requires v0 < 64 && v1 < 64 && v2 < 64 && v3 < 64 && v == 262144 * v0 + (4096 * v1 + (64 * v2 + v3))
    ensures v / 262144 % 64 == v0 && v / 4096 % 64 == v1 && v / 64 % 64 == v2 && v % 64 == v3
  {
    UniqueRemainder(v, 64, 4096 * v0 + 64 * v1 + v2, v3);
    UniqueRemainder(v, 4096, 64 * v0 + v1, 64 * v2 + v3);
    UniqueRemainder(v, 262144, v0, 4096 * v1 + (64 * v2 + v3));
    UniqueRemainder(4096 * v0 + 64 * v1 + v2, 64, 64 * v0 + v1, v2);
    UniqueRemainder(64 * v0 + v1, 64, v0, v1);
  }

  /** The bytes put together again from pieces of 6, 2, 4, 4, 2 and 6 bits. */
  lemma ByteParts(b0: byte, b1: byte, b2: byte)
    ensures var v0, v1, v2, v3 := b0 / 4, b0 % 4 * 16 + b1 / 16, b1 % 16 * 4 + b2 / 64, b2 % 64;
            (v0 * 64 + v1) / 16 == b0 && (v0 * 64 + v1) % 16 == b1 / 16
            && (b1 / 16 * 64 + v2) / 4 == b1 && (b1 / 16 * 64 + v2) % 4 == b2 / 64
            && b2 / 64 * 64 + v3 == b2
  {
    UniqueRemainder(b0 / 4 * 64 + (b0 % 4 * 16 + b1 / 16), 16, b0, b1 / 16);
    UniqueRemainder(b1 / 16 * 64 + (b1 % 16 * 4 + b2 / 64), 4, b1, b2 / 64);
  }

  lemma OneByteDecodes(b0: byte)
    ensures DecodePending(GroupSymbols(Group(b0, 0, 0))[..2], 0, 0) == Some([b0])
  {
    var v0, v1, v2, v3, p2, p3 := GroupValues(b0, 0, 0);
    TwoSymbols([Symbol(v0), Symbol(v1)], v0, v1, b0);
    assert GroupSymbols(Group(b0, 0, 0))[..2] == [Symbol(v0), Symbol(v1)];
  }

  lemma TwoSymbols(e: bytes, v0: nat, v1: nat, b0: byte)
    requires v0 < 64 && v1 < 64 && e == [Symbol(v0), Symbol(v1)] && TopByte(v0 * 64 + v1, 4) == b0
    ensures DecodePending(e, 0, 0) == Some([b0])
  {
    PendingStep(e, 0, 0, v0);
    PendingStep(e[1..], v0, 6, v1);
    assert e[1..][1..] == [];
    assert [b0] + [] == [b0];
  }

  lemma TwoBytesDecode(b0: byte, b1: byte)
    ensures DecodePending(GroupSymbols(Group(b0, b1, 0))[..3], 0, 0) == Some([b0, b1])
  {
    var v0, v1, v2, v3, p2, p3 := GroupValues(b0, b1, 0);
    ThreeSymbols([Symbol(v0), Symbol(v1), Symbol(v2)], v0, v1, v2, p2, b0, b1);
    assert GroupSymbols(Group(b0, b1, 0))[..3] == [Symbol(v0), Symbol(v1), Symbol(v2)];
  }

  lemma ThreeSymbols(e: bytes, v0: nat, v1: nat, v2: nat, p2: nat, b0: byte, b1: byte)
    requires v0 < 64 && v1 < 64 && v2 < 64 && p2 < 16 && e == [Symbol(v0), Symbol(v1), Symbol(v2)]
    requires TopByte(v0 * 64 + v1, 4) == b0 && (v0 * 64 + v1) % 16 == p2 && TopByte(p2 * 64 + v2, 2) == b1
    ensures DecodePending(e, 0, 0) == Some([b0, b1])
  {
    PendingStep(e, 0, 0, v0);
    PendingStep(e[1..], v0, 6, v1);
    PendingStep(e[1..][1..], p2, 4, v2);
    assert e[1..][1..][1..] == [];
    assert [b0] + ([b1] + []) == [b0, b1];
  }

  lemma {:induction false} PendingRoundTrip(s: bytes)
    ensures DecodePending(Encode(s), 0, 0) == Some(s)
  {
    if |s| == 1 {
      OneByteDecodes(s[0]);
      assert [s[0]] == s;
    } else if |s| == 2 {
      TwoBytesDecode(s[0], s[1]);
      assert [s[0], s[1]] == s;
    } else if |s| >= 3 {
      GroupDecodes(s[0], s[1], s[2], Encode(s[3..]));
      PendingRoundTrip(s[3..]);
      assert [s[0]] + ([s[1]] + ([s[2]] + s[3..])) == s;
    }
  }

  /** Decoding undoes encoding on every byte sequence, although the 32-bit buffer wraps. */
  lemma Base64UrlRoundTrip(s: bytes)
    ensures Decode(Encode(s)) == Some(s)
  {
    EncodeHasNoDot(s);
    assert StripPad(Encode(s)) == Encode(s);
    WrapIsHarmless(Encode(s), 0, 0);
    PendingRoundTrip(s);
  }

  /** The decoder refuses a text exactly when, padding aside, a byte is outside the alphabet. */
  lemma {:induction false} DecodeRefusesOnly(e: bytes, buffer: nat, bits: nat)
    requires buffer < U32 && PendingBits(bits)
    ensures DecodeWrapped(e, buffer, bits).Some? <==> InAlphabet(e)
    decreases |e|
  {
    if e != [] && Reverse(e[0]).Some? {
      var wrapped := (buffer * 64 + Reverse(e[0]).value) % U32;
      DecodeRefusesOnly(e[1..], wrapped, if bits == 0 then 6 else bits - 2);
      assert InAlphabet(e) <==> InAlphabet(e[1..]) by {
        if InAlphabet(e[1..]) {
          forall i | 0 <= i < |e| ensures Reverse(e[i]).Some? { if i > 0 { assert e[i] == e[1..][i - 1]; } }
        }
      }
    }
  }

  // ---- the codec against the alphabet ----

  /** The alphabet of section 5 of RFC 4648: the symbol of each group of six bits. */
  const ALPHABET := CAPITALS + SMALL + NUMERALS + "-_"

  /** `c` is the symbol of `v`. */
  predicate Stands(c: byte, v: nat) { v < |ALPHABET| && ALPHABET[v] as int == c }

  lemma SymbolStands(v: nat)
    requires v < 64
    ensures |ALPHABET| == 64 && Stands(Symbol(v), v)
  {
    if v < 26 {
      LettersAt(v);
      assert ALPHABET[v] == CAPITALS[v];
    } else if v < 52 {
      LettersAt(v - 26);
      assert ALPHABET[v] == SMALL[v - 26];
    } else if v < 62 {
      NumeralsAt(v - 52);
      assert ALPHABET[v] == NUMERALS[v - 52];
    } else {
      assert ALPHABET[v] == "-_"[v - 62];
    }
  }

  lemma ReverseStands(c: byte, v: nat)
    ensures Reverse(c) == Some(v) <==> Stands(c, v)
  {
    if Reverse(c) == Some(v) { SymbolStands(v); }
    if Stands(c, v) {
      SymbolStands(v);
      SymbolRoundTrip(v);
    }
  }

  /** 2 to the power of `n`. */
  function TwoTo(n: nat): (p: nat)
    ensures p > 0
  {
    if n == 0 then 1 else 2 * TwoTo(n - 1)
  }

  lemma SmallPowers()
    ensures TwoTo(0) == 1 && TwoTo(2) == 4 && TwoTo(4) == 16 && TwoTo(6) == 64 && TwoTo(8) == 256 && TwoTo(10) == 1024
  {
    assert TwoTo(1) == 2 && TwoTo(3) == 8 && TwoTo(5) == 32 && TwoTo(7) == 128 && TwoTo(9) == 512;
  }

  /** Byte `i`, zero behind the end. */
  function ByteAt(s: bytes, i: nat): byte { if i < |s| then s[i] else 0 }

  /** Bits 6k to 6k + 5 of the text, counted from the most significant bit of its first byte. */
  function SixBits(s: bytes, k: nat): nat {
    (ByteAt(s, 6 * k / 8) * 256 + ByteAt(s, 6 * k / 8 + 1)) / TwoTo(10 - 6 * k % 8) % 64
  }

  /** The encoding, bit by bit: as many symbols as are needed, each that of the next six bits. */
  lemma {:induction false} EncodeIsBits(s: bytes)
    ensures |Encode(s)| == (4 * |s| + 2) / 3
    ensures forall k :: 0 <= k < |Encode(s)| ==> Stands(Encode(s)[k], SixBits(s, k))
    decreases |s|
  {
    if |s| >= 3 { EncodeIsBits(s[3..]); }
    forall k | 0 <= k < |Encode(s)| ensures Stands(Encode(s)[k], SixBits(s, k)) {
      if k < 4 {
        FirstSymbols(s, k);
      } else {
        SixBitsLater(s, k);
        assert Encode(s)[k] == Encode(s[3..])[k - 4];
      }
    }
  }

  lemma SixBitsLater(s: bytes, k: nat)
    requires |s| >= 3 && k >= 4
    ensures SixBits(s, k) == SixBits(s[3..], k - 4)
  {
    var i := 6 * (k - 4) / 8;
    assert 6 * k / 8 == i + 3 && 6 * k % 8 == 6 * (k - 4) % 8;
    assert ByteAt(s, i + 3) == ByteAt(s[3..], i) && ByteAt(s, i + 4) == ByteAt(s[3..], i + 1);
  }

  lemma FirstSymbols(s: bytes, k: nat)
    requires k < 4 && k < |Encode(s)|
    ensures Stands(Encode(s)[k], SixBits(s, k))
  {
    var b0, b1, b2 := ByteAt(s, 0), ByteAt(s, 1), ByteAt(s, 2);
    assert Encode(s)[k] == GroupSymbols(Group(b0, b1, b2))[k];
    GroupSix(s, b0, b1, b2);
    SymbolStands(SixBits(s, k));
  }

  lemma GroupSix(s: bytes, b0: byte, b1: byte, b2: byte)
    requires b0 == ByteAt(s, 0) && b1 == ByteAt(s, 1) && b2 == ByteAt(s, 2)
    ensures forall k :: 0 <= k < 4 ==> SixBits(s, k) < 64 && GroupSymbols(Group(b0, b1, b2))[k] == Symbol(SixBits(s, k))
  {
    GroupQuotients(Group(b0, b1, b2), b0 / 4, b0 % 4 * 16 + b1 / 16, b1 % 16 * 4 + b2 / 64, b2 % 64);
    FirstSix(s, b0, b1, b2);
  }

  lemma FirstSix(s: bytes, b0: byte, b1: byte, b2: byte)
    requires b0 == ByteAt(s, 0) && b1 == ByteAt(s, 1) && b2 == ByteAt(s, 2)
    ensures SixBits(s, 0) == b0 / 4 && SixBits(s, 1) == b0 % 4 * 16 + b1 / 16
    ensures SixBits(s, 2) == b1 % 16 * 4 + b2 / 64 && SixBits(s, 3) == b2 % 64
  {
    SmallPowers();
    SixAt(s, 0, 0, 0, b0, b1, 1024);
    SixAt(s, 1, 0, 6, b0, b1, 16);
    SixAt(s, 2, 1, 4, b1, b2, 64);
    SixAt(s, 3, 2, 2, b2, ByteAt(s, 3), 256);
    Windows(b0, b1, b2, ByteAt(s, 3));
  }

  lemma SixAt(s: bytes, k: nat, i: nat, skipped: nat, a: byte, b: byte, shift: nat)
    requires 6 * k / 8 == i && 6 * k % 8 == skipped <= 6 && a == ByteAt(s, i) && b == ByteAt(s, i + 1)
    requires shift == TwoTo(10 - skipped)
    ensures SixBits(s, k) == (a * 256 + b) / shift % 64
  {
  }

  lemma Windows(b0: byte, b1: byte, b2: byte, b3: byte)
    ensures (b0 * 256 + b1) / 1024 % 64 == b0 / 4
    ensures (b0 * 256 + b1) / 16 % 64 == b0 % 4 * 16 + b1 / 16
    ensures (b1 * 256 + b2) / 64 % 64 == b1 % 16 * 4 + b2 / 64
    ensures (b2 * 256 + b3) / 256 % 64 == b2 % 64
  {
    UniqueRemainder(b0 * 256 + b1, 1024, b0 / 4, b0 % 4 * 256 + b1);
    UniqueRemainder(b0 * 256 + b1, 16, b0 * 16 + b1 / 16, b1 % 16);
    UniqueRemainder(b0 * 16 + b1 / 16, 64, b0 / 4, b0 % 4 * 16 + b1 / 16);
    UniqueRemainder(b1 * 256 + b2, 64, b1 * 4 + b2 / 64, b2 % 64);
    UniqueRemainder(b1 * 4 + b2 / 64, 64, b1 / 16, b1 % 16 * 4 + b2 / 64);
    UniqueRemainder(b2 * 256 + b3, 256, b2, b3);
  }

  /** The values of the symbols of a text. */
  ghost predicate Values(e: bytes, vs: seq<nat>) { |vs| == |e| && forall i :: 0 <= i < |e| ==> Stands(e[i], vs[i]) }

  predicate SixBitValues(vs: seq<nat>) { forall i :: 0 <= i < |vs| ==> vs[i] < 64 }

  function Symbols(vs: seq<nat>): (e: bytes)
    requires SixBitValues(vs)
    ensures |e| == |vs| && forall i :: 0 <= i < |vs| ==> e[i] == Symbol(vs[i])
  {
    seq(|vs|, i requires 0 <= i < |vs| => Symbol(vs[i]))
  }

  /** Bits 8k to 8k + 7 of the bits that the symbols stand for. */
  function EightBits(vs: seq<nat>, k: nat): byte
    requires 8 * k + 7 < 6 * |vs|
  {
    (vs[8 * k / 6] * 64 + vs[8 * k / 6 + 1]) / TwoTo(4 - 8 * k % 6) % 256
  }

  /** `out` is the whole bytes among those bits. */
  ghost predicate WholeBytes(vs: seq<nat>, out: bytes) {
    |out| == 6 * |vs| / 8 && forall k :: 0 <= k < |out| ==> out[k] == EightBits(vs, k)
  }

  lemma TopBits(u: nat, v: nat, bits: nat)
    requires u < 64 && v < 64 && (bits == 6 || bits == 4 || bits == 2)
    ensures (u * 64 + v) / Pow2(bits - 2) % 256 == TopByte(u % Pow2(bits) * 64 + v, bits - 2)
    ensures (u % Pow2(bits) * 64 + v) % Pow2(bits - 2) == v % Pow2(bits - 2)
  {
    ShiftedRemainder(u, Pow2(bits), v);
    LowBitsDecide(u * 64 + v, u % Pow2(bits) * 64 + v, bits - 2);
    var m := 64 / Pow2(bits - 2);
    assert u % Pow2(bits) * 64 == Pow2(bits - 2) * (u % Pow2(bits) * m);
    AddMultiple(v, Pow2(bits - 2), u % Pow2(bits) * m);
  }

  /** The first bytes, in terms of the symbols they come from. */
  lemma FirstByte(vs: seq<nat>)
    requires SixBitValues(vs) && |vs| >= 2
    ensures EightBits(vs, 0) == TopByte(vs[0] * 64 + vs[1], 4) && (vs[0] * 64 + vs[1]) % 16 == vs[1] % 16
  {
    ByteOf(vs, 0, vs[0], vs[1], 6);
  }

  lemma SecondByte(vs: seq<nat>)
    requires SixBitValues(vs) && |vs| >= 3
    ensures EightBits(vs, 1) == TopByte(vs[1] % 16 * 64 + vs[2], 2) && (vs[1] % 16 * 64 + vs[2]) % 4 == vs[2] % 4
  {
    ByteOf(vs, 1, vs[1], vs[2], 4);
  }

  lemma ThirdByte(vs: seq<nat>)
    requires SixBitValues(vs) && |vs| >= 4
    ensures EightBits(vs, 2) == TopByte(vs[2] % 4 * 64 + vs[3], 0)
  {
    ByteOf(vs, 2, vs[2], vs[3], 2);
  }

  lemma ByteOf(vs: seq<nat>, k: nat, u: nat, v: nat, bits: nat)
    requires k < 3 && k + 1 < |vs| && u == vs[k] < 64 && v == vs[k + 1] < 64 && bits == 6 - 2 * k
    ensures EightBits(vs, k) == TopByte(u % Pow2(bits) * 64 + v, bits - 2)
    ensures (u % Pow2(bits) * 64 + v) % Pow2(bits - 2) == v % Pow2(bits - 2)
  {
    SmallPowers();
    TopBits(u, v, bits);
    assert 8 * k / 6 == k && 8 * k % 6 == 2 * k;
  }

  lemma LaterBytes(vs: seq<nat>, k: nat)
    requires |vs| >= 4 && 8 * k + 7 < 6 * (|vs| - 4)
    ensures EightBits(vs, k + 3) == EightBits(vs[4..], k)
  {
    assert 8 * (k + 3) / 6 == 8 * k / 6 + 4 && 8 * (k + 3) % 6 == 8 * k % 6;
  }

  lemma {:induction false} SymbolsDecode(vs: seq<nat>) returns (out: bytes)
    requires SixBitValues(vs)
    ensures DecodePending(Symbols(vs), 0, 0) == Some(out) && WholeBytes(vs, out)
    decreases |vs|
  {
    if |vs| < 4 {
      out := FewSymbolsDecode(vs);
    } else {
      var rest := SymbolsDecode(vs[4..]);
      out := FourDecode(vs, rest);
    }
  }

  lemma FewSymbolsDecode(vs: seq<nat>) returns (out: bytes)
    requires SixBitValues(vs) && |vs| < 4
    ensures DecodePending(Symbols(vs), 0, 0) == Some(out) && WholeBytes(vs, out)
  {
    var e := Symbols(vs);
    if |vs| >= 2 { FirstByte(vs); }
    if |vs| == 3 {
      SecondByte(vs);
      out := [EightBits(vs, 0), EightBits(vs, 1)];
      assert e == [Symbol(vs[0]), Symbol(vs[1]), Symbol(vs[2])];
      ThreeSymbols(e, vs[0], vs[1], vs[2], vs[1] % 16, out[0], out[1]);
    } else if |vs| == 2 {
      out := [EightBits(vs, 0)];
      assert e == [Symbol(vs[0]), Symbol(vs[1])];
      TwoSymbols(e, vs[0], vs[1], out[0]);
    } else {
      out := [];
      if |vs| == 1 {
        PendingStep(e, 0, 0, vs[0]);
        assert e[1..] == [];
      }
    }
  }

  lemma FourDecode(vs: seq<nat>, rest: bytes) returns (out: bytes)
    requires SixBitValues(vs) && |vs| >= 4 && SixBitValues(vs[4..])
    requires DecodePending(Symbols(vs[4..]), 0, 0) == Some(rest) && WholeBytes(vs[4..], rest)
    ensures DecodePending(Symbols(vs), 0, 0) == Some(out) && WholeBytes(vs, out)
  {
    FirstByte(vs);
    SecondByte(vs);
    ThirdByte(vs);
    var b0, b1, b2 := EightBits(vs, 0), EightBits(vs, 1), EightBits(vs, 2);
    out := [b0] + ([b1] + ([b2] + rest));
    assert Symbols(vs) == [Symbol(vs[0]), Symbol(vs[1]), Symbol(vs[2]), Symbol(vs[3])] + Symbols(vs[4..]);
    FourSymbols(Symbols(vs), Symbols(vs[4..]), vs[0], vs[1], vs[2], vs[3], vs[1] % 16, vs[2] % 4, b0, b1, b2);
    ThreeMore(vs, rest, out);
  }

  lemma ThreeMore(vs: seq<nat>, rest: bytes, out: bytes)
    requires |vs| >= 4 && WholeBytes(vs[4..], rest)
    requires out == [EightBits(vs, 0)] + ([EightBits(vs, 1)] + ([EightBits(vs, 2)] + rest))
    ensures WholeBytes(vs, out)
  {
    forall k | 0 <= k < |out| ensures out[k] == EightBits(vs, k) {
      if k >= 3 { LaterBytes(vs, k - 3); }
    }
  }

  lemma SymbolOf(c: byte, v: nat)
    requires Stands(c, v)
    ensures v < 64 && c == Symbol(v)
  {
    SymbolStands(0);
    ReverseStands(c, v);
  }

  lemma ValuesDecode(e: bytes, vs: seq<nat>) returns (out: bytes)
    requires Values(e, vs)
    ensures DecodeWrapped(e, 0, 0) == Some(out) && WholeBytes(vs, out)
  {
    forall i | 0 <= i < |e| ensures vs[i] < 64 && e[i] == Symbol(vs[i]) { SymbolOf(e[i], vs[i]); }
    assert e == Symbols(vs);
    WrapIsHarmless(e, 0, 0);
    out := SymbolsDecode(vs);
  }

  lemma DecodedHasValues(e: bytes) returns (vs: seq<nat>)
    requires DecodeWrapped(e, 0, 0).Some?
    ensures Values(e, vs)
  {
    DecodeRefusesOnly(e, 0, 0);
    vs := seq(|e|, i requires 0 <= i < |e| => Reverse(e[i]).value);
    forall i | 0 <= i < |e| ensures Stands(e[i], vs[i]) { ReverseStands(e[i], vs[i]); }
  }

  /** The padding is the `=` signs at the end, all of them. */
  lemma {:induction false} StripPadIs(s: bytes)
    ensures StripPad(s) <= s && forall i :: |StripPad(s)| <= i < |s| ==> s[i] == '=' as int
    ensures StripPad(s) != [] ==> StripPad(s)[|StripPad(s)| - 1] != '=' as int
  {
    if s != [] && s[|s| - 1] == PAD { StripPadIs(s[..|s| - 1]); }
  }

  /**
   The decoding, bit by bit: a text is accepted exactly when, padding aside, each of its bytes is
   in the alphabet, and then the result is the whole bytes of the bits its symbols stand for.
   */
  lemma DecodeIsBits(s: bytes, out: bytes)
    ensures Decode(s) == Some(out) <==> exists vs :: Values(StripPad(s), vs) && WholeBytes(vs, out)
  {
    var e := StripPad(s);
    if vs :| Values(e, vs) && WholeBytes(vs, out) {
      var decoded := ValuesDecode(e, vs);
      assert decoded == out;
    }
    if Decode(s) == Some(out) {
      var vs := DecodedHasValues(e);
      var decoded := ValuesDecode(e, vs);
    }
  }
}
