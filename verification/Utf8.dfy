/**
 UTF-8 as the JSON writer validates it and as the JSON parser produces it
 (RFC 3629, section 4).
 */
module Utf8 {
  import opened Bytes

  const REPLACEMENT: bytes := [0xEF, 0xBF, 0xBD]

  /** A continuation byte: its two top bits are 10. */
  predicate Tail(b: byte) { b / 64 == 2 }

  /**
   Number of bytes of the UTF-8 sequence that starts at `s[i]`, or 0. A test of the top
   bits of a byte, `(b & 0xE0) == 0xC0` say, is written as a quotient, `b / 32 == 6`.
   */
  function ValidateUtf8(s: bytes, i: nat): (n: nat)
    requires i < |s|
    ensures n <= 4 && i + n <= |s|
  {
    var b0 := s[i];
    if b0 < 0x80 then 1
    else if b0 / 32 == 6 then
      if i + 1 >= |s| then 0
      else if !Tail(s[i + 1]) then 0
      else if b0 < 0xC2 then 0
      else 2
    else if b0 / 16 == 14 then
      if i + 2 >= |s| then 0
      else if !Tail(s[i + 1]) || !Tail(s[i + 2]) then 0
      else if b0 == 0xE0 && s[i + 1] < 0xA0 then 0
      else if b0 == 0xED && s[i + 1] >= 0xA0 then 0
      else 3
    else if b0 / 8 == 30 then
      if i + 3 >= |s| then 0
      else if !Tail(s[i + 1]) || !Tail(s[i + 2]) || !Tail(s[i + 3]) then 0
      else if b0 == 0xF0 && s[i + 1] < 0x90 then 0
      else if b0 == 0xF4 && s[i + 1] >= 0x90 then 0
      else if b0 > 0xF4 then 0
      else 4
    else 0
  }

  /** A Unicode scalar value: any code point but a surrogate. */
  predicate Scalar(cp: nat) { cp < 0xD800 || 0xE000 <= cp < 0x110000 }

  /** The parser's encoder. Each part is already in range, so `|` is written as `+`. */
  function EncodeUtf8(cp: nat): (r: bytes)
    requires cp < 0x200000
    ensures 1 <= |r| <= 4
  {
    if cp < 0x80 then [cp]
    else if cp < 0x800 then [0xC0 + cp / 64, 0x80 + cp % 64]
    else if cp < 0x10000 then [0xE0 + cp / 4096, 0x80 + cp / 64 % 64, 0x80 + cp % 64]
    else [0xF0 + cp / 262144, 0x80 + cp / 4096 % 64, 0x80 + cp / 64 % 64, 0x80 + cp % 64]
  }

  /** The payload of a byte: what is left once its marker bits are taken away. */
  function Bits(s: bytes, i: nat, marker: int): int
    requires i < |s|
  {
    (s[i] as int) - marker
  }

  /** The code point the valid sequence at `s[i]` encodes. */
  function DecodeUtf8(s: bytes, i: nat): (cp: nat)
    requires i < |s| && ValidateUtf8(s, i) > 0
    ensures Scalar(cp)
  {
    var n := ValidateUtf8(s, i);
    if n == 1 then s[i]
    else if n == 2 then Bits(s, i, 0xC0) * 64 + Bits(s, i + 1, 0x80)
    else if n == 3 then Bits(s, i, 0xE0) * 4096 + Bits(s, i + 1, 0x80) * 64 + Bits(s, i + 2, 0x80)
    else Bits(s, i, 0xF0) * 262144 + Bits(s, i + 1, 0x80) * 4096 + Bits(s, i + 2, 0x80) * 64 + Bits(s, i + 3, 0x80)
  }

  lemma ValidSequenceEncodes(s: bytes, i: nat)
    requires i < |s| && ValidateUtf8(s, i) > 0
    ensures |EncodeUtf8(DecodeUtf8(s, i))| == ValidateUtf8(s, i)
    ensures At(s, i, EncodeUtf8(DecodeUtf8(s, i)))
  {
    var n := ValidateUtf8(s, i);
    if n == 2 {
      TwoBytesEncode(s, i);
    } else if n == 3 {
      ThreeBytesEncode(s, i);
    } else if n == 4 {
      FourBytesEncode(s, i);
    } else {
      assert s[i..i + 1] == EncodeUtf8(DecodeUtf8(s, i));
    }
    AtSlice(s, i, EncodeUtf8(DecodeUtf8(s, i)));
  }

  lemma TwoBytesEncode(s: bytes, i: nat)
    requires i < |s| && ValidateUtf8(s, i) == 2
    ensures s[i..i + 2] == EncodeUtf8(DecodeUtf8(s, i))
  {
    Digits64(Bits(s, i, 0xC0), Bits(s, i + 1, 0x80));
  }

  lemma ThreeBytesEncode(s: bytes, i: nat)
    requires i < |s| && ValidateUtf8(s, i) == 3
    ensures s[i..i + 3] == EncodeUtf8(DecodeUtf8(s, i))
  {
    Digits64(Bits(s, i, 0xE0), Bits(s, i + 1, 0x80));
    Digits64(Bits(s, i, 0xE0) * 64 + Bits(s, i + 1, 0x80), Bits(s, i + 2, 0x80));
    Quotients64(DecodeUtf8(s, i));
  }

  lemma FourBytesEncode(s: bytes, i: nat)
    requires i < |s| && ValidateUtf8(s, i) == 4
    ensures s[i..i + 4] == EncodeUtf8(DecodeUtf8(s, i))
  {
    var top := Bits(s, i, 0xF0) * 64 + Bits(s, i + 1, 0x80);
    Digits64(Bits(s, i, 0xF0), Bits(s, i + 1, 0x80));
    Digits64(top, Bits(s, i + 2, 0x80));
    Digits64(top * 64 + Bits(s, i + 2, 0x80), Bits(s, i + 3, 0x80));
    Quotients64(DecodeUtf8(s, i));
  }

  lemma Digits64(q: nat, r: nat)
    requires r < 64
    ensures (q * 64 + r) / 64 == q && (q * 64 + r) % 64 == r
  {
  }

  lemma Quotients64(n: nat)
    ensures n / 4096 == n / 64 / 64 && n / 262144 == n / 64 / 64 / 64
  {
  }

  lemma EncodingIsValid(s: bytes, i: nat, cp: nat)
    requires Scalar(cp) && At(s, i, EncodeUtf8(cp))
    ensures i < |s| && ValidateUtf8(s, i) == |EncodeUtf8(cp)|
  {
    var e := EncodeUtf8(cp);
    forall k: nat | k < |e| ensures s[i + k] == e[k] { AtByte(s, i, e, k); }
    assert s[i + 0] == e[0];
    if |e| >= 2 { assert s[i + 1] == e[1]; }
    if |e| >= 3 { assert s[i + 2] == e[2]; }
    if |e| >= 4 { assert s[i + 3] == e[3]; }
  }

  /** The validator accepts, with its exact length, the encoding of a scalar value and nothing else. */
  lemma ValidateUtf8Exact(s: bytes, i: nat, n: nat)
    requires i < |s| && n > 0
    ensures ValidateUtf8(s, i) == n
       <==> exists cp: nat :: Scalar(cp) && |EncodeUtf8(cp)| == n && At(s, i, EncodeUtf8(cp))
  {
    if ValidateUtf8(s, i) == n {
      ValidSequenceEncodes(s, i);
      var cp := DecodeUtf8(s, i);
      assert Scalar(cp) && |EncodeUtf8(cp)| == n && At(s, i, EncodeUtf8(cp));
    }
    if cp: nat :| Scalar(cp) && |EncodeUtf8(cp)| == n && At(s, i, EncodeUtf8(cp)) {
      EncodingIsValid(s, i, cp);
    }
  }

  /** `s` is valid UTF-8 from position `i` on. */
  predicate WellFormedFrom(s: bytes, i: nat)
    requires i <= |s|
    decreases |s| - i
  {
    i == |s| || (ValidateUtf8(s, i) > 0 && WellFormedFrom(s, i + ValidateUtf8(s, i)))
  }

  predicate WellFormed(s: bytes) { WellFormedFrom(s, 0) }

  function EncodeAll(cps: seq<nat>): bytes
    requires forall i :: 0 <= i < |cps| ==> Scalar(cps[i])
  {
    if cps == [] then []
    else
      assert Scalar(cps[0]);
      EncodeUtf8(cps[0]) + EncodeAll(cps[1..])
  }

  /** How many bytes the writer takes at `i`: a valid sequence, or one byte. */
  function StepAt(s: bytes, i: nat): (n: nat)
    requires i < |s|
    ensures n >= 1 && i + n <= |s|
  {
    if ValidateUtf8(s, i) == 0 then 1 else ValidateUtf8(s, i)
  }

  /** What those bytes become: themselves, or U+FFFD. */
  function CleanUnit(s: bytes, i: nat): bytes
    requires i < |s|
  {
    if ValidateUtf8(s, i) == 0 then REPLACEMENT else s[i..i + ValidateUtf8(s, i)]
  }

  /** The text of `s` from `i` on with every byte that starts no valid sequence replaced by U+FFFD. */
  function SanitizedFrom(s: bytes, i: nat): bytes
    requires i <= |s|
    decreases |s| - i
  {
    if i == |s| then [] else CleanUnit(s, i) + SanitizedFrom(s, i + StepAt(s, i))
  }

  function Sanitized(s: bytes): bytes { SanitizedFrom(s, 0) }

  lemma EncodeAllCons(cp: nat, cps: seq<nat>)
    requires Scalar(cp) && forall k :: 0 <= k < |cps| ==> Scalar(cps[k])
    ensures forall k :: 0 <= k < |cps| + 1 ==> Scalar(([cp] + cps)[k])
    ensures EncodeAll([cp] + cps) == EncodeUtf8(cp) + EncodeAll(cps)
  {
    assert ([cp] + cps)[1..] == cps;
  }

  lemma PartThenRest(s: bytes, i: nat, e: bytes)
    requires At(s, i, e)
    ensures i + |e| <= |s| && s[i..] == e + s[i + |e|..]
  {
    AtSlice(s, i, e);
    assert s[i..] == s[i..i + |e|] + s[i + |e|..];
  }

  lemma {:induction false} WellFormedIsEncoding(s: bytes, i: nat) returns (cps: seq<nat>)
    requires i <= |s| && WellFormedFrom(s, i)
    ensures forall k :: 0 <= k < |cps| ==> Scalar(cps[k])
    ensures s[i..] == EncodeAll(cps)
    decreases |s| - i
  {
    if i == |s| {
      cps := [];
    } else {
      var cp, n := DecodeUtf8(s, i), ValidateUtf8(s, i);
      ValidSequenceEncodes(s, i);
      var rest := WellFormedIsEncoding(s, i + n);
      EncodeAllCons(cp, rest);
      cps := [cp] + rest;
      PartThenRest(s, i, EncodeUtf8(cp));
    }
  }

  lemma StartsWithPart(s: bytes, i: nat, e: bytes, rest: bytes)
    requires i <= |s| && s[i..] == e + rest
    ensures At(s, i, e) && i + |e| <= |s| && s[i + |e|..] == rest
  {
    assert |s| - i == |e| + |rest|;
    assert s[i..i + |e|] == s[i..][..|e|] == e;
    assert s[i + |e|..] == s[i..][|e|..] == rest;
    AtSlice(s, i, e);
  }

  lemma {:induction false} EncodingIsWellFormed(s: bytes, i: nat, cps: seq<nat>)
    requires forall k :: 0 <= k < |cps| ==> Scalar(cps[k])
    requires i <= |s| && s[i..] == EncodeAll(cps)
    ensures WellFormedFrom(s, i)
    decreases |cps|
  {
    if cps != [] {
      var e := EncodeUtf8(cps[0]);
      StartsWithPart(s, i, e, EncodeAll(cps[1..]));
      EncodingIsValid(s, i, cps[0]);
      EncodingIsWellFormed(s, i + |e|, cps[1..]);
    }
  }

  /** Valid UTF-8 is exactly a concatenation of encoded scalar values. */
  lemma WellFormedExact(s: bytes)
    ensures WellFormed(s)
       <==> exists cps: seq<nat> :: (forall k :: 0 <= k < |cps| ==> Scalar(cps[k])) && EncodeAll(cps) == s
  {
    assert s[0..] == s;
    if WellFormed(s) {
      var cps := WellFormedIsEncoding(s, 0);
      assert EncodeAll(cps) == s;
    }
    if cps: seq<nat> :| (forall k :: 0 <= k < |cps| ==> Scalar(cps[k])) && EncodeAll(cps) == s {
      EncodingIsWellFormed(s, 0, cps);
    }
  }

  /** Validity at a position only looks at the bytes of the sequence itself. */
  lemma ValidateLocal(s: bytes, i: nat, t: bytes, j: nat)
    requires i < |s| && ValidateUtf8(s, i) > 0
    requires At(t, j, s[i..i + ValidateUtf8(s, i)])
    ensures j < |t| && ValidateUtf8(t, j) == ValidateUtf8(s, i)
  {
    ValidSequenceEncodes(s, i);
    EncodingIsValid(t, j, DecodeUtf8(s, i));
  }

  lemma {:induction false} WellFormedSuffix(s: bytes, i: nat, t: bytes, j: nat)
    requires i <= |s| && WellFormedFrom(s, i)
    requires j <= |t| && t[j..] == s[i..]
    ensures WellFormedFrom(t, j)
    decreases |s| - i
  {
    assert |t| - j == |s| - i;
    if i < |s| {
      var n := ValidateUtf8(s, i);
      assert t[j..j + n] == t[j..][..n] == s[i..][..n] == s[i..i + n];
      ValidateLocal(s, i, t, j);
      assert t[j + n..] == t[j..][n..] == s[i..][n..] == s[i + n..];
      WellFormedSuffix(s, i + n, t, j + n);
    }
  }

  lemma {:induction false} WellFormedConcat(a: bytes, i: nat, b: bytes)
    requires i <= |a| && WellFormedFrom(a, i) && WellFormed(b)
    ensures WellFormedFrom(a + b, i)
    decreases |a| - i
  {
    var s := a + b;
    if i == |a| {
      assert s[i..] == b[0..];
      WellFormedSuffix(b, 0, s, i);
    } else {
      var n := ValidateUtf8(a, i);
      assert s[i..i + n] == a[i..i + n];
      ValidateLocal(a, i, s, i);
      WellFormedConcat(a, i + n, b);
    }
  }

  lemma WellFormedUnit(s: bytes, i: nat)
    requires i < |s| && ValidateUtf8(s, i) > 0
    ensures WellFormed(s[i..i + ValidateUtf8(s, i)])
  {
    var n := ValidateUtf8(s, i);
    var u := s[i..i + n];
    assert u[0..n] == u;
    ValidateLocal(s, i, u, 0);
  }

  lemma CleanUnitWellFormed(s: bytes, i: nat)
    requires i < |s|
    ensures WellFormed(CleanUnit(s, i))
  {
    if ValidateUtf8(s, i) > 0 {
      WellFormedUnit(s, i);
    } else {
      assert ValidateUtf8(REPLACEMENT, 0) == 3;
    }
  }

  /** What replaces the invalid bytes is itself valid. */
  lemma {:induction false} SanitizedIsWellFormed(s: bytes, i: nat)
    requires i <= |s|
    ensures WellFormed(SanitizedFrom(s, i))
    decreases |s| - i
  {
    if i < |s| {
      CleanUnitWellFormed(s, i);
      SanitizedIsWellFormed(s, i + StepAt(s, i));
      WellFormedConcat(CleanUnit(s, i), 0, SanitizedFrom(s, i + StepAt(s, i)));
    }
  }

  /** Valid text is left alone. */
  lemma {:induction false} ValidIsKept(s: bytes, i: nat)
    requires i <= |s| && WellFormedFrom(s, i)
    ensures SanitizedFrom(s, i) == s[i..]
    decreases |s| - i
  {
    if i < |s| {
      var n := ValidateUtf8(s, i);
      ValidIsKept(s, i + n);
      assert s[i..] == s[i..i + n] + s[i + n..];
    }
  }

  /** The sanitizer: its result is valid, and equals the text exactly when that was valid. */
  lemma SanitizedProperties(s: bytes)
    ensures WellFormed(Sanitized(s))
    ensures WellFormed(s) <==> Sanitized(s) == s
  {
    SanitizedIsWellFormed(s, 0);
    assert s[0..] == s;
    if WellFormed(s) { ValidIsKept(s, 0); }
  }
}
