/**
 The session cookie v1.<principal>.<expiry>.<nonce>.<mac>, every field base64url, over an
 arbitrary MAC function of the signing key.
 */
module Cookie {
  import opened Bytes
  import opened TypeParser
  import opened TypeRoundTrip
  import opened Characters
  import B = Base64Url

  const VERSION: bytes := [118, 49]

  /** The MAC under the server's signing key. */
  type Mac = bytes -> bytes

  datatype Verdict = Accepted(principal: bytes) | Rejected(code: CookieError)

  datatype CookieError = MissingCookie | BadFormat | BadVersion | BadSignature | BadPayload | Expired

  predicate IsPrincipalByte(c: byte) { IsDigit(c) || 97 <= c <= 102 }

  /** 64 lowercase hexadecimal digits. */
  predicate IsValidPrincipalHex(s: bytes) { |s| == 64 && forall i :: 0 <= i < |s| ==> IsPrincipalByte(s[i]) }

  method CheckPrincipalHex(s: bytes) returns (ok: bool)
    ensures ok <==> IsValidPrincipalHex(s)
  {
    if |s| != 64 {
      return false;
    }
    var i := 0;
    while i < |s|
      invariant 0 <= i <= |s| && forall k :: 0 <= k < i ==> IsPrincipalByte(s[k])
    {
      if !IsPrincipalByte(s[i]) {
        return false;
      }
      i := i + 1;
    }
    return true;
  }

  // ---- segments ----

  predicate NoDot(s: bytes) { forall i :: 0 <= i < |s| ==> s[i] != DOT }

  /** The pieces between the dots; `piece` is what has been read of the first. */
  function SplitFrom(piece: bytes, s: bytes): seq<bytes>
    decreases |s|
  {
    if s == [] then [piece]
    else if s[0] == DOT then [piece] + SplitFrom([], s[1..])
    else SplitFrom(piece + [s[0]], s[1..])
  }

  function Split(s: bytes): seq<bytes> { SplitFrom([], s) }

  function Join(segments: seq<bytes>): bytes {
    if segments == [] then []
    else if |segments| == 1 then segments[0]
    else segments[0] + [DOT] + Join(segments[1..])
  }

  method SplitSegments(s: bytes) returns (segments: seq<bytes>)
    ensures segments == Split(s)
  {
    segments := [];
    var start, i := 0, 0;
    assert s[0..] == s && s[0..0] == [];
    Nothing(Split(s));
    while i < |s|
      invariant 0 <= start <= i <= |s|
      invariant Split(s) == segments + SplitFrom(s[start..i], s[i..])
    {
      assert s[i..][0] == s[i] && s[i..][1..] == s[i + 1..] && s[start..i] + [s[i]] == s[start..i + 1];
      if s[i] == DOT {
        assert segments + ([s[start..i]] + SplitFrom([], s[i + 1..])) == segments + [s[start..i]] + SplitFrom([], s[i + 1..]);
        segments := segments + [s[start..i]];
        start := i + 1;
        assert s[start..i + 1] == [];
      }
      i := i + 1;
    }
    assert s[i..] == [] && s[start..i] == s[start..];
    segments := segments + [s[start..]];
  }

  lemma Nothing(r: seq<bytes>)
    ensures [] + r == r
  {
  }

  lemma {:induction false} SplitPiece(piece: bytes, s: bytes, rest: bytes)
    requires NoDot(s)
    ensures SplitFrom(piece, s + rest) == SplitFrom(piece + s, rest)
    decreases |s|
  {
    if s == [] {
      assert s + rest == rest && piece + s == piece;
    } else {
      assert (s + rest)[1..] == s[1..] + rest;
      SplitPiece(piece + [s[0]], s[1..], rest);
      assert piece + [s[0]] + s[1..] == piece + s;
    }
  }

  /** Segments without dots are found again. */
  lemma {:induction false} SplitJoin(segments: seq<bytes>)
    requires segments != [] && forall i :: 0 <= i < |segments| ==> NoDot(segments[i])
    ensures Split(Join(segments)) == segments
  {
    var first := segments[0];
    assert NoDot(first) && [] + first == first;
    if |segments| == 1 {
      SplitPiece([], first, []);
      assert first + [] == first;
    } else {
      var rest := Join(segments[1..]);
      assert Join(segments) == first + ([DOT] + rest);
      SplitPiece([], first, [DOT] + rest);
      assert ([DOT] + rest)[1..] == rest;
      SplitJoin(segments[1..]);
    }
  }

  /** Splitting loses nothing, whatever the text. */
  lemma {:induction false} JoinSplit(piece: bytes, s: bytes)
    ensures SplitFrom(piece, s) != [] && Join(SplitFrom(piece, s)) == piece + s
    decreases |s|
  {
    if s != [] {
      assert s == [s[0]] + s[1..];
      if s[0] == DOT {
        JoinSplit([], s[1..]);
        var rest := SplitFrom([], s[1..]);
        assert ([piece] + rest)[1..] == rest;
        assert [] + s[1..] == s[1..];
        assert piece + [DOT] + s[1..] == piece + s;
      } else {
        JoinSplit(piece + [s[0]], s[1..]);
        assert piece + [s[0]] + s[1..] == piece + s;
      }
    }
  }

  // ---- issuing and verifying ----

  function MacInput(segments: seq<bytes>): bytes
    requires |segments| >= 4
  {
    segments[0] + [DOT] + segments[1] + [DOT] + segments[2] + [DOT] + segments[3]
  }

  /** The expiry: unsigned 64-bit addition. */
  function Expiry(now: nat, ttl: nat): (e: nat)
    ensures e < U64 && (now + ttl < U64 ==> e == now + ttl)
  {
    (now + ttl) % U64
  }

  /** IssueCookie; None is the exception for a malformed principal. */
  function IssueCookie(principal: bytes, now: nat, ttl: nat, nonce: bytes, mac: Mac): Option<bytes> {
    if !IsValidPrincipalHex(principal) then None
    else
      var head := MacInput([VERSION, B.Encode(principal), B.Encode(Digits(Expiry(now, ttl))), B.Encode(nonce)]);
      Some(head + [DOT] + B.Encode(mac(head)))
  }

  function VerifyCookie(cookie: bytes, now: nat, mac: Mac): Verdict {
    if cookie == [] then Rejected(MissingCookie)
    else
      var segments := Split(cookie);
      if |segments| != 5 then Rejected(BadFormat)
      else if segments[0] != VERSION then Rejected(BadVersion)
      else
        var actual := B.Decode(segments[4]);
        if actual.None? then Rejected(BadFormat)
        else if mac(MacInput(segments)) != actual.value then Rejected(BadSignature)
        else VerifyPayload(segments[1], segments[2], now)
  }

  /** The payload of a cookie whose signature holds. */
  function VerifyPayload(identity: bytes, expiry: bytes, now: nat): Verdict {
    var principal := B.Decode(identity);
    var digits := B.Decode(expiry);
    if principal.None? || digits.None? then Rejected(BadPayload)
    else
      var expires := ParseUnsigned(digits.value);
      if expires.None? || !IsValidPrincipalHex(principal.value) then Rejected(BadPayload)
      else if now >= expires.value then Rejected(Expired)
      else Accepted(principal.value)
  }

  lemma ExpiryReads(n: nat)
    requires n < U64
    ensures ParseUnsigned(Digits(n)) == Some(n)
  {
    DigitsRoundTrip(n);
    NumeralTrims(Digits(n));
  }

  /** The five segments of an issued cookie. */
  function Segments(principal: bytes, expires: nat, nonce: bytes, mac: Mac): (r: seq<bytes>)
    ensures |r| == 5
  {
    var head := [VERSION, B.Encode(principal), B.Encode(Digits(expires)), B.Encode(nonce)];
    head + [B.Encode(mac(MacInput(head)))]
  }

  lemma JoinFive(a: bytes, b: bytes, c: bytes, d: bytes, e: bytes)
    ensures Join([a, b, c, d, e]) == MacInput([a, b, c, d]) + [DOT] + e
  {
    assert [a, b, c, d, e][1..] == [b, c, d, e] && [b, c, d, e][1..] == [c, d, e];
    assert [c, d, e][1..] == [d, e] && [d, e][1..] == [e];
    assert Join([d, e]) == d + [DOT] + e;
    assert Join([c, d, e]) == c + [DOT] + Join([d, e]);
    assert Join([b, c, d, e]) == b + [DOT] + Join([c, d, e]);
    FiveDots(a, b, c, d, e);
  }

  lemma FiveDots(a: bytes, b: bytes, c: bytes, d: bytes, e: bytes)
    ensures a + [DOT] + (b + [DOT] + (c + [DOT] + (d + [DOT] + e))) == a + [DOT] + b + [DOT] + c + [DOT] + d + [DOT] + e
  {
  }

  lemma IssuedSplits(principal: bytes, now: nat, ttl: nat, nonce: bytes, mac: Mac) returns (cookie: bytes)
    requires IsValidPrincipalHex(principal)
    ensures IssueCookie(principal, now, ttl, nonce, mac) == Some(cookie)
    ensures cookie != [] && Split(cookie) == Segments(principal, Expiry(now, ttl), nonce, mac)
  {
    cookie := IssueCookie(principal, now, ttl, nonce, mac).value;
    var s := Segments(principal, Expiry(now, ttl), nonce, mac);
    JoinFive(s[0], s[1], s[2], s[3], s[4]);
    assert s == [s[0], s[1], s[2], s[3], s[4]];
    B.EncodeHasNoDot(principal);
    B.EncodeHasNoDot(Digits(Expiry(now, ttl)));
    B.EncodeHasNoDot(nonce);
    B.EncodeHasNoDot(mac(MacInput([s[0], s[1], s[2], s[3]])));
    SplitJoin(s);
  }

  /**
   Cookie round trip: for any MAC function and any nonce, an issued cookie verifies to the
   principal it was issued for exactly while the time is before its expiry, which is issue time
   plus ttl when that does not overflow 64 bits.
   */
  lemma CookieRoundTrip(principal: bytes, now: nat, ttl: nat, nonce: bytes, mac: Mac, later: nat)
    requires IsValidPrincipalHex(principal)
    ensures IssueCookie(principal, now, ttl, nonce, mac).Some?
    ensures VerifyCookie(IssueCookie(principal, now, ttl, nonce, mac).value, later, mac)
         == if later < Expiry(now, ttl) then Accepted(principal) else Rejected(Expired)
    ensures now + ttl < U64 ==> Expiry(now, ttl) == now + ttl
  {
    var cookie := IssuedSplits(principal, now, ttl, nonce, mac);
    IssuedVerifies(cookie, principal, Expiry(now, ttl), nonce, mac, later);
  }

  lemma IssuedVerifies(cookie: bytes, principal: bytes, expires: nat, nonce: bytes, mac: Mac, later: nat)
    requires IsValidPrincipalHex(principal) && expires < U64 && cookie != []
    requires Split(cookie) == Segments(principal, expires, nonce, mac)
    ensures VerifyCookie(cookie, later, mac) == if later < expires then Accepted(principal) else Rejected(Expired)
  {
    SegmentsAreSigned(principal, expires, nonce, mac);
    SignedVerifies(cookie, Segments(principal, expires, nonce, mac), later, mac);
    PayloadReads(principal, expires, later);
  }

  lemma SegmentsAreSigned(principal: bytes, expires: nat, nonce: bytes, mac: Mac)
    ensures var s := Segments(principal, expires, nonce, mac);
            B.Decode(s[4]) == Some(mac(MacInput(s)))
            && s[0] == VERSION && s[1] == B.Encode(principal) && s[2] == B.Encode(Digits(expires))
  {
    var s := Segments(principal, expires, nonce, mac);
    var head := [VERSION, B.Encode(principal), B.Encode(Digits(expires)), B.Encode(nonce)];
    assert MacInput(s) == MacInput(head);
    B.Base64UrlRoundTrip(mac(MacInput(head)));
  }

  /** A cookie with the right version and signature stands or falls with its payload. */
  lemma SignedVerifies(cookie: bytes, s: seq<bytes>, now: nat, mac: Mac)
    requires cookie != [] && Split(cookie) == s && |s| == 5 && s[0] == VERSION && B.Decode(s[4]) == Some(mac(MacInput(s)))
    ensures VerifyCookie(cookie, now, mac) == VerifyPayload(s[1], s[2], now)
  {
  }

  lemma PayloadReads(principal: bytes, expires: nat, later: nat)
    requires IsValidPrincipalHex(principal) && expires < U64
    ensures VerifyPayload(B.Encode(principal), B.Encode(Digits(expires)), later)
         == if later < expires then Accepted(principal) else Rejected(Expired)
  {
    B.Base64UrlRoundTrip(principal);
    B.Base64UrlRoundTrip(Digits(expires));
    ExpiryReads(expires);
  }

  /**
   The converse: whatever is accepted has the MAC of everything before its last dot in its last
   segment, and names the principal its own second segment encodes.
   */
  lemma AcceptedIsSigned(cookie: bytes, now: nat, mac: Mac)
    requires VerifyCookie(cookie, now, mac).Accepted?
    ensures var s, p := Split(cookie), VerifyCookie(cookie, now, mac).principal;
            |s| == 5 && cookie == MacInput(s) + [DOT] + s[4] && s[0] == VERSION
            && B.Decode(s[4]) == Some(mac(MacInput(s))) && B.Decode(s[1]) == Some(p) && IsValidPrincipalHex(p)
  {
    var s := Split(cookie);
    JoinSplit([], cookie);
    assert [] + cookie == cookie;
    assert s == [s[0], s[1], s[2], s[3], s[4]];
    JoinFive(s[0], s[1], s[2], s[3], s[4]);
    assert MacInput([s[0], s[1], s[2], s[3]]) == MacInput(s);
  }

  // ---- which cookie gets which verdict ----

  lemma VersionLiteral()
    ensures VERSION == Ascii("v1")
  {
  }

  /** A principal is 64 of these characters. */
  lemma PrincipalIsHex(s: bytes)
    ensures IsValidPrincipalHex(s) <==> |s| == 64 && forall i :: 0 <= i < 64 ==> OneOf(s[i], "0123456789abcdef")
  {
    var hex := "0123456789abcdef";
    assert forall v {:trigger hex[v]} :: 0 <= v < 16 ==> hex[v] as int == if v < 10 then 48 + v else 87 + v;
    forall c: byte ensures IsPrincipalByte(c) <==> OneOf(c, hex) {
      if IsDigit(c) { assert hex[c - 48] as int == c; }
      if 97 <= c <= 102 { assert hex[c - 87] as int == c; }
    }
  }

  /** Five segments, the first of them `v1`. */
  predicate Versioned(cookie: bytes) { |Split(cookie)| == 5 && Split(cookie)[0] == Ascii("v1") }

  /** The last segment encodes the MAC of all that stands before the last dot. */
  ghost predicate SignedBy(cookie: bytes, mac: Mac) {
    Versioned(cookie)
    && exists prefix :: cookie == prefix + Ascii(".") + Split(cookie)[4] && B.Decode(Split(cookie)[4]) == Some(mac(prefix))
  }

  /** The second segment encodes the principal and the third the numeral of its expiry. */
  predicate Names(cookie: bytes, principal: bytes, expires: nat)
    requires |Split(cookie)| == 5
  {
    && B.Decode(Split(cookie)[1]) == Some(principal) && IsValidPrincipalHex(principal)
    && B.Decode(Split(cookie)[2]).Some? && ParseUnsigned(B.Decode(Split(cookie)[2]).value) == Some(expires)
  }

  lemma PrefixOf(cookie: bytes, mac: Mac) returns (prefix: bytes)
    requires |Split(cookie)| == 5
    ensures prefix == MacInput(Split(cookie)) && cookie == prefix + Ascii(".") + Split(cookie)[4]
    ensures Versioned(cookie) ==> (SignedBy(cookie, mac) <==> B.Decode(Split(cookie)[4]) == Some(mac(prefix)))
  {
    var s := Split(cookie);
    prefix := MacInput(s);
    JoinSplit([], cookie);
    assert [] + cookie == cookie && s == [s[0], s[1], s[2], s[3], s[4]] && Ascii(".") == [DOT];
    JoinFive(s[0], s[1], s[2], s[3], s[4]);
    assert MacInput([s[0], s[1], s[2], s[3]]) == prefix;
    forall other | cookie == other + Ascii(".") + s[4] ensures other == prefix { SamePrefix(other, prefix, Ascii(".") + s[4], cookie); }
  }

  lemma SamePrefix(a: bytes, b: bytes, tail: bytes, whole: bytes)
    requires whole == a + tail && whole == b + tail
    ensures a == b
  {
    assert a == whole[..|whole| - |tail|] && b == whole[..|whole| - |tail|];
  }

  /** Every refusal has its own condition, and a cookie is accepted exactly when none of them holds. */
  lemma VerdictIs(cookie: bytes, now: nat, mac: Mac, principal: bytes)
    ensures var r, s := VerifyCookie(cookie, now, mac), Split(cookie);
            && (r == Rejected(MissingCookie) <==> cookie == [])
            && (r == Rejected(BadFormat) <==> cookie != [] && (|s| != 5 || (Versioned(cookie) && B.Decode(s[4]).None?)))
            && (r == Rejected(BadVersion) <==> |s| == 5 && !Versioned(cookie))
            && (r == Rejected(BadSignature) <==> Versioned(cookie) && B.Decode(s[4]).Some? && !SignedBy(cookie, mac))
            && (r == Rejected(BadPayload) <==> SignedBy(cookie, mac) && forall p, e :: !Names(cookie, p, e))
            && (r == Rejected(Expired) <==> SignedBy(cookie, mac) && exists p, e :: Names(cookie, p, e) && now >= e)
            && (r == Accepted(principal) <==> SignedBy(cookie, mac) && exists e :: Names(cookie, principal, e) && now < e)
  {
    VersionLiteral();
    if cookie != [] && |Split(cookie)| == 5 {
      var prefix := PrefixOf(cookie, mac);
      if SignedBy(cookie, mac) { PayloadVerdict(cookie, now, principal); }
    }
  }

  lemma PayloadVerdict(cookie: bytes, now: nat, principal: bytes)
    requires |Split(cookie)| == 5
    ensures var r := VerifyPayload(Split(cookie)[1], Split(cookie)[2], now);
            && (r == Rejected(BadPayload) <==> forall p, e :: !Names(cookie, p, e))
            && (r == Rejected(Expired) <==> exists p, e :: Names(cookie, p, e) && now >= e)
            && (r == Accepted(principal) <==> exists e :: Names(cookie, principal, e) && now < e)
            && (r == Rejected(BadPayload) || r == Rejected(Expired) || r.Accepted?)
  {
    var p, digits := B.Decode(Split(cookie)[1]), B.Decode(Split(cookie)[2]);
    if p.Some? && digits.Some? {
      var e := ParseUnsigned(digits.value);
      if e.Some? && IsValidPrincipalHex(p.value) { assert Names(cookie, p.value, e.value); }
    }
  }

  /** The text of an issued cookie. */
  lemma IssuedText(principal: bytes, now: nat, ttl: nat, nonce: bytes, mac: Mac)
    requires IsValidPrincipalHex(principal) && now + ttl < 0x1_0000_0000_0000_0000
    ensures var payload := Ascii("v1.") + B.Encode(principal) + Ascii(".") + B.Encode(Digits(now + ttl)) + Ascii(".") + B.Encode(nonce);
            IssueCookie(principal, now, ttl, nonce, mac) == Some(payload + Ascii(".") + B.Encode(mac(payload)))
  {
    assert Ascii(".") == [DOT] && Ascii("v1.") == VERSION + [DOT];
  }

  method Verify(cookie: bytes, now: nat, mac: Mac) returns (r: Verdict)
    ensures r == VerifyCookie(cookie, now, mac)
  {
    if cookie == [] {
      return Rejected(MissingCookie);
    }
    var segments := SplitSegments(cookie);
    if |segments| != 5 {
      return Rejected(BadFormat);
    }
    if segments[0] != VERSION {
      return Rejected(BadVersion);
    }
    var actual := B.Base64UrlDecode(segments[4]);
    if actual.None? {
      return Rejected(BadFormat);
    }
    if mac(MacInput(segments)) != actual.value {
      return Rejected(BadSignature);
    }
    var principal := B.Base64UrlDecode(segments[1]);
    if principal.None? {
      return Rejected(BadPayload);
    }
    var digits := B.Base64UrlDecode(segments[2]);
    if digits.None? {
      return Rejected(BadPayload);
    }
    var expires := ParseUnsigned(digits.value);
    if expires.None? {
      return Rejected(BadPayload);
    }
    var valid := CheckPrincipalHex(principal.value);
    if !valid {
      return Rejected(BadPayload);
    }
    return if now >= expires.value then Rejected(Expired) else Accepted(principal.value);
  }
}
