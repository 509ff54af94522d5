/** UTF-8 as the tokenizer uses it: utf8Append, the lenient decoder of
    decodeCps, and the final pass of decode, which replaces every byte that
    starts no character by U+FFFD. The grammar is the one of section 4 of
    RFC 3629. Bit operations are written as arithmetic: x >> 6 is x / 64,
    x & 0x3F is x % 64, and an `or` of disjoint bits is a sum. */
module Utf8 {
  import opened Bytes

  const REPLACEMENT: nat := 0xFFFD

  /** utf8Append, for the code points its callers pass. */
  function Encode(cp: nat): (s: seq<byte>)
    requires cp < 0x11_0000
    ensures 1 <= |s| <= 4
  {
    if cp < 0x80 then [cp]
    else if cp < 0x800 then [0xC0 + cp / 64, 0x80 + cp % 64]
    else if cp < 0x1_0000 then [0xE0 + cp / 4096, 0x80 + cp / 64 % 64, 0x80 + cp % 64]
    else [0xF0 + cp / 262144, 0x80 + cp / 4096 % 64, 0x80 + cp / 64 % 64, 0x80 + cp % 64]
  }

  predicate Tail(b: byte) { 0x80 <= b <= 0xBF }

  /** The length of the UTF8-char that s begins with, 0 when there is none
      (the productions UTF8-1 to UTF8-4 of RFC 3629, section 4). */
  function CharLen(s: seq<byte>): (n: nat)
    ensures n <= |s| && n <= 4
  {
    if |s| >= 1 && s[0] <= 0x7F then 1
    else if |s| >= 2 && 0xC2 <= s[0] <= 0xDF && Tail(s[1]) then 2
    else if |s| >= 3 && Tail(s[2])
      && (|| (s[0] == 0xE0 && 0xA0 <= s[1] <= 0xBF)
          || (0xE1 <= s[0] <= 0xEC && Tail(s[1]))
          || (s[0] == 0xED && 0x80 <= s[1] <= 0x9F)
          || (0xEE <= s[0] <= 0xEF && Tail(s[1]))) then 3
    else if |s| >= 4 && Tail(s[2]) && Tail(s[3])
      && (|| (s[0] == 0xF0 && 0x90 <= s[1] <= 0xBF)
          || (0xF1 <= s[0] <= 0xF3 && Tail(s[1]))
          || (s[0] == 0xF4 && 0x80 <= s[1] <= 0x8F)) then 4
    else 0
  }

  predicate WellFormed(s: seq<byte>) {
    s == [] || (CharLen(s) > 0 && WellFormed(s[CharLen(s)..]))
  }

  /** s with every byte at which no UTF8-char starts replaced by U+FFFD. */
  function Sanitised(s: seq<byte>): seq<byte> {
    if s == [] then []
    else if CharLen(s) > 0 then s[..CharLen(s)] + Sanitised(s[CharLen(s)..])
    else Encode(REPLACEMENT) + Sanitised(s[1..])
  }

  /** Sanitising changes nothing exactly on well-formed text. */
  lemma {:induction false} SanitisedIffWellFormed(s: seq<byte>)
    ensures WellFormed(s) <==> Sanitised(s) == s
  {
    if s != [] {
      var n := CharLen(s);
      if n > 0 {
        SanitisedIffWellFormed(s[n..]);
        assert Sanitised(s)[n..] == Sanitised(s[n..]);
      } else {
        SanitisedStartsChar(s);
      }
    }
  }

  lemma SanitisedStartsChar(s: seq<byte>)
    requires s != []
    ensures CharLen(Sanitised(s)) > 0
  {
    if CharLen(s) > 0 {
      CharLenLocal(s, Sanitised(s[CharLen(s)..]));
    } else {
      CharLenLocal(Encode(REPLACEMENT), Sanitised(s[1..]));
    }
  }

  /** Whether and how a char starts s depends only on its own bytes. */
  lemma CharLenLocal(s: seq<byte>, rest: seq<byte>)
    requires CharLen(s) > 0
    ensures CharLen(s[..CharLen(s)] + rest) == CharLen(s)
  {
    var t := s[..CharLen(s)] + rest;
    assert forall i :: 0 <= i < CharLen(s) ==> t[i] == s[i];
  }

  /** The output of the final decoding pass is always well-formed. */
  lemma {:induction false} SanitisedIsWellFormed(s: seq<byte>)
    ensures WellFormed(Sanitised(s))
  {
    if s != [] {
      var n := CharLen(s);
      if n > 0 {
        SanitisedIsWellFormed(s[n..]);
        CharLenLocal(s, Sanitised(s[n..]));
        assert Sanitised(s)[n..] == Sanitised(s[n..]);
      } else {
        SanitisedIsWellFormed(s[1..]);
        CharLenLocal(Encode(REPLACEMENT), Sanitised(s[1..]));
        assert Sanitised(s)[3..] == Sanitised(s[1..]);
      }
    }
  }

  lemma {:induction false} SanitisedKeepsFront(good: seq<byte>, rest: seq<byte>)
    requires WellFormed(good)
    ensures Sanitised(good + rest) == good + Sanitised(rest)
  {
    hide CharLen, Sanitised;
    if good == [] {
      assert good + rest == rest;
    } else {
      var n := CharLen(good);
      SanitisedKeepsFront(good[n..], rest);
      CharLenLocal(good, good[n..] + rest);
      assert good + rest == good[..n] + (good[n..] + rest);
      assert (good + rest)[..n] == good[..n] && (good + rest)[n..] == good[n..] + rest;
      SanitisedStep(good + rest);
    }
  }

  /** Character by character: well-formed text in front is kept, and a byte at which
      no character starts becomes the three bytes of U+FFFD, nothing else being
      touched by it. */
  lemma SanitisedReplaces(good: seq<byte>, rest: seq<byte>)
    requires WellFormed(good) && rest != [] && CharLen(rest) == 0
    ensures Sanitised(good + rest) == good + [0xEF, 0xBF, 0xBD] + Sanitised(rest[1..])
  {
    hide CharLen, Sanitised;
    SanitisedKeepsFront(good, rest);
    SanitisedStep(rest);
    assert Encode(REPLACEMENT) == [0xEF, 0xBF, 0xBD];
  }

  // ---------------------------------------------------------------- the final pass of decode

  /** The low bits of a byte: b & (m - 1) for m a power of two. */
  function Low(b: int, m: nat): (r: nat)
    requires m > 0 && b >= 0
    ensures r < m
  {
    b % m
  }

  function Payload2(s: seq<byte>): nat
    requires |s| >= 2
  {
    Low(s[0], 32) * 64 + Low(s[1], 64)
  }

  function Payload3(s: seq<byte>): nat
    requires |s| >= 3
  {
    Low(s[0], 16) * 4096 + Low(s[1], 64) * 64 + Low(s[2], 64)
  }

  function Payload4(s: seq<byte>): nat
    requires |s| >= 4
  {
    Low(s[0], 8) * 262144 + Low(s[1], 64) * 4096 + Low(s[2], 64) * 64 + Low(s[3], 64)
  }

  lemma Digit(q: nat, r: nat)
    requires r < 64
    ensures (q * 64 + r) / 64 == q && (q * 64 + r) % 64 == r
  {
  }

  lemma Digits(a: nat, b: nat, c: nat, d: nat)
    requires b < 64 && c < 64 && d < 64
    ensures var cp := a * 262144 + b * 4096 + c * 64 + d;
      cp / 262144 == a && cp / 4096 % 64 == b && cp / 64 % 64 == c && cp % 64 == d && cp / 4096 == a * 64 + b
        && cp / 64 == a * 4096 + b * 64 + c
  {
    var cp := a * 262144 + b * 4096 + c * 64 + d;
    Digit(a, b);
    Digit(a * 64 + b, c);
    Digit(a * 4096 + b * 64 + c, d);
    assert cp / 4096 == cp / 64 / 64 && cp / 262144 == cp / 4096 / 64;
  }

  lemma TailLow(b: byte)
    ensures Tail(b) ==> Low(b, 64) == b - 0x80
  {
  }

  lemma TwoByteChar(s: seq<byte>)
    requires |s| >= 2 && 0xC0 <= s[0] < 0xE0
    ensures CharLen(s) == 2 <==> Tail(s[1]) && Payload2(s) >= 0x80
    ensures Payload2(s) < 0x800
    ensures CharLen(s) != 2 ==> CharLen(s) == 0
    ensures CharLen(s) == 2 ==> Encode(Payload2(s)) == s[..2]
  {
    assert Low(s[0], 32) == s[0] - 0xC0;
    TailLow(s[1]);
    Digits(0, 0, Low(s[0], 32), Low(s[1], 64));
  }

  lemma ThreeByteChar(s: seq<byte>)
    requires |s| >= 3 && 0xE0 <= s[0] < 0xF0
    ensures CharLen(s) == 3 <==> Tail(s[1]) && Tail(s[2]) && Payload3(s) >= 0x800 && !(0xD800 <= Payload3(s) <= 0xDFFF)
    ensures CharLen(s) != 3 ==> CharLen(s) == 0
    ensures Payload3(s) < 0x1_0000
    ensures CharLen(s) == 3 ==> Encode(Payload3(s)) == s[..3]
  {
    assert Low(s[0], 16) == s[0] - 0xE0;
    TailLow(s[1]);
    TailLow(s[2]);
    Digits(0, Low(s[0], 16), Low(s[1], 64), Low(s[2], 64));
    hide Low;
  }

  lemma FourByteLength(s: seq<byte>, a: int, b: int, c: int, d: int)
    requires |s| >= 4 && 0 <= a < 8 && 0 <= b < 64 && 0 <= c < 64 && 0 <= d < 64
    requires s[0] == 0xF0 + a && s[1] == 0x80 + b && s[2] == 0x80 + c && s[3] == 0x80 + d
    ensures CharLen(s) == if 0x1_0000 <= a * 262144 + b * 4096 + c * 64 + d <= 0x10_FFFF then 4 else 0
  {
  }

  lemma FourByteChar(s: seq<byte>)
    requires |s| >= 4 && 0xF0 <= s[0] < 0xF8
    ensures CharLen(s) == 4 <==> Tail(s[1]) && Tail(s[2]) && Tail(s[3]) && 0x1_0000 <= Payload4(s) <= 0x10_FFFF
    ensures CharLen(s) != 4 ==> CharLen(s) == 0
    ensures CharLen(s) == 4 ==> Encode(Payload4(s)) == s[..4]
  {
    if Tail(s[1]) && Tail(s[2]) && Tail(s[3]) {
      assert Low(s[0], 8) == s[0] - 0xF0;
      TailLow(s[1]);
      TailLow(s[2]);
      TailLow(s[3]);
      FourByteLength(s, Low(s[0], 8), Low(s[1], 64), Low(s[2], 64), Low(s[3], 64));
      Digits(Low(s[0], 8), Low(s[1], 64), Low(s[2], 64), Low(s[3], 64));
    }
    hide Low;
  }

  /** The lead byte announces no more bytes than are left. */
  predicate LeadFits(s: seq<byte>)
    requires s != []
  {
    || s[0] < 0x80
    || (0xC0 <= s[0] < 0xE0 && |s| > 1) || (0xE0 <= s[0] < 0xF0 && |s| > 2) || (0xF0 <= s[0] < 0xF8 && |s| > 3)
  }

  /** What the lead byte alone says about the character. */
  lemma LeadDecides(s: seq<byte>)
    requires s != []
    ensures s[0] < 0x80 ==> CharLen(s) == 1 && s[..1] == [s[0]]
    ensures !LeadFits(s) ==> CharLen(s) == 0
  {
  }

  lemma SanitisedStep(s: seq<byte>)
    requires s != []
    ensures CharLen(s) > 0 ==> Sanitised(s) == s[..CharLen(s)] + Sanitised(s[CharLen(s)..])
    ensures CharLen(s) == 0 ==> Sanitised(s) == Encode(REPLACEMENT) + Sanitised(s[1..])
  {
  }

  /** One step of the pass on the bytes left: what is appended and how many bytes are consumed. */
  method SanitiseStep(rest: seq<byte>) returns (piece: seq<byte>, used: nat)
    requires rest != []
    ensures 1 <= used <= |rest|
    ensures Sanitised(rest) == piece + Sanitised(rest[used..])
  {
    hide Sanitised, CharLen, Encode, Payload2, Payload3, Payload4, Tail;
    LeadDecides(rest);
    SanitisedStep(rest);
    var b := rest[0];
    piece, used := Encode(REPLACEMENT), 1;
    if b < 0x80 {
      piece := [b];
    } else if 0xC0 <= b < 0xE0 && 1 < |rest| {
      TwoByteChar(rest);
      if Tail(rest[1]) && Payload2(rest) >= 0x80 {
        piece, used := Encode(Payload2(rest)), 2;
      }
    } else if 0xE0 <= b < 0xF0 && 2 < |rest| {
      ThreeByteChar(rest);
      if Tail(rest[1]) && Tail(rest[2]) && Payload3(rest) >= 0x800 && !(0xD800 <= Payload3(rest) <= 0xDFFF) {
        piece, used := Encode(Payload3(rest)), 3;
      }
    } else if 0xF0 <= b < 0xF8 && 3 < |rest| {
      FourByteChar(rest);
      if Tail(rest[1]) && Tail(rest[2]) && Tail(rest[3]) && 0x1_0000 <= Payload4(rest) <= 0x10_FFFF {
        piece, used := Encode(Payload4(rest)), 4;
      }
    }
  }

  method Sanitise(bytes: seq<byte>) returns (out: seq<byte>)
    ensures out == Sanitised(bytes)
  {
    hide Sanitised;
    out := [];
    var i := 0;
    assert bytes[0..] == bytes;
    while i < |bytes|
      invariant 0 <= i <= |bytes|
      invariant Sanitised(bytes) == out + Sanitised(bytes[i..])
    {
      var piece, used := SanitiseStep(bytes[i..]);
      assert bytes[i..][used..] == bytes[i + used..];
      out := out + piece;
      i := i + used;
    }
    assert Sanitised(bytes[|bytes|..]) == [] by { SanitisedEmpty(bytes[|bytes|..]); }
  }

  lemma SanitisedEmpty(s: seq<byte>)
    ensures s == [] ==> Sanitised(s) == []
  {
  }

  // ---------------------------------------------------------------- the lenient decoder

  /** The code point the decoder reads off the front of s and the bytes it
      takes; it looks only at the first byte and at how much is left. */
  function Lenient(s: seq<byte>): (r: (nat, nat))
    requires s != []
    ensures 1 <= r.1 <= 4 && r.1 <= |s|
  {
    if s[0] >= 0xF0 && |s| > 3 then (Payload4(s), 4)
    else if s[0] >= 0xE0 && |s| > 2 then (Payload3(s), 3)
    else if s[0] >= 0xC0 && |s| > 1 then (Payload2(s), 2)
    else (s[0], 1)
  }

  /** On an encoded code point below U+0800 the lenient decoder reads it back. */
  lemma LenientReadsBack(cp: nat, rest: seq<byte>)
    requires cp < 0x800
    ensures Lenient(Encode(cp) + rest) == (cp, |Encode(cp)|)
  {
    if cp >= 0x80 {
      var s := Encode(cp) + rest;
      assert s[0] == 0xC0 + cp / 64 && s[1] == 0x80 + cp % 64;
      assert s[0] % 32 == cp / 64 && s[1] % 64 == cp % 64;
    }
  }
}
