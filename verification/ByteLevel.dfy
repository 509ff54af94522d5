/** The byte-level alphabet: every byte is written as one printable code point,
    and tokens are spelled in the UTF-8 of those code points. */
module ByteLevel {
  import opened Bytes
  import Utf8

  const UNSET: nat := 0xFFFF_FFFF

  predicate Printable(b: nat) {
    0x21 <= b <= 0x7E || 0xA1 <= b <= 0xAC || 0xAE <= b <= 0xFF
  }

  /** How many bytes below b are not printable. */
  function Unprintable(b: nat): nat {
    if b == 0 then 0 else Unprintable(b - 1) + (if Printable(b - 1) then 0 else 1)
  }

  /** Printable bytes stand for themselves, the others get code points from 256 on. */
  function ByteToCp(b: byte): nat {
    if Printable(b) then b else 256 + Unprintable(b)
  }

  /** The table, as the constructor of ByteMap fills it. */
  method BuildByteMap() returns (byteToCp: array<nat>)
    ensures fresh(byteToCp) && byteToCp.Length == 256
    ensures forall b: byte :: byteToCp[b] == ByteToCp(b)
  {
    byteToCp := new nat[256];
    var n := 0;
    for b := 0 to 256
      invariant forall i :: 0 <= i < b ==> byteToCp[i] == UNSET
    {
      byteToCp[b] := UNSET;
    }
    var ranges := [(0x21, 0x7E), (0xA1, 0xAC), (0xAE, 0xFF)];
    for r := 0 to 3
      invariant forall i :: 0 <= i < 256 ==> byteToCp[i] == if InFirst(r, i) then i else UNSET
    {
      for b := ranges[r].0 to ranges[r].1 + 1
        invariant forall i :: 0 <= i < 256 ==>
          byteToCp[i] == if InFirst(r, i) || ranges[r].0 <= i < b then i else UNSET
      {
        byteToCp[b] := b;
      }
    }
    for b := 0 to 256
      invariant n == Unprintable(b)
      invariant forall i: byte :: byteToCp[i] == if i < b then ByteToCp(i) else if Printable(i) then i else UNSET
    {
      if byteToCp[b] == UNSET {
        byteToCp[b] := 256 + n;
        n := n + 1;
      }
    }
  }

  /** i lies in one of the first r printable ranges. */
  ghost predicate InFirst(r: nat, i: int) {
    || (r >= 1 && 0x21 <= i <= 0x7E)
    || (r >= 2 && 0xA1 <= i <= 0xAC)
    || (r >= 3 && 0xAE <= i <= 0xFF)
  }

  lemma {:induction false} UnprintableGrows(a: nat, b: nat)
    requires a < b && !Printable(a)
    ensures Unprintable(a) < Unprintable(b)
    decreases b
  {
    if a + 1 < b { UnprintableGrows(a, b - 1); }
  }

  lemma {:induction false} UnprintableBelow(b: nat)
    requires b <= 256
    ensures Unprintable(b) == if b <= 0x21 then b else if b <= 0x7F then 0x21 else if b <= 0xA1 then b - 0x5E
                              else if b <= 0xAD then 67 else 68
  {
    if b > 0 { UnprintableBelow(b - 1); }
  }

  /** The alphabet is injective, never uses a space, and needs at most two UTF-8 bytes. */
  lemma ByteToCpFacts(a: byte, b: byte)
    ensures ByteToCp(a) == ByteToCp(b) ==> a == b
    ensures ByteToCp(a) != 0x20 && ByteToCp(a) < 324
  {
    UnprintableBelow(a);
    UnprintableBelow(b);
    if a < b && !Printable(a) { UnprintableGrows(a, b); }
    if b < a && !Printable(b) { UnprintableGrows(b, a); }
  }

  /** The byte whose code point is cp, found as the search loop finds it. */
  function FirstByte(cp: nat, b: nat): (r: Option<byte>)
    requires b <= 256
    ensures r.Some? ==> ByteToCp(r.value) == cp
    ensures r.None? ==> forall c: byte :: c >= b ==> ByteToCp(c) != cp
    decreases 256 - b
  {
    if b == 256 then None else if ByteToCp(b) == cp then Some(b) else FirstByte(cp, b + 1)
  }

  lemma FirstByteInverts(b: byte)
    ensures FirstByte(ByteToCp(b), 0) == Some(b)
  {
    var r := FirstByte(ByteToCp(b), 0);
    if r.Some? { ByteToCpFacts(r.value, b); }
  }

  // ---------------------------------------------------------------- spelling and reading

  function Symbol(b: byte): (s: seq<byte>)
    ensures |s| >= 1
  {
    ByteToCpFacts(b, b);
    Utf8.Encode(ByteToCp(b))
  }

  /** The one-symbol pieces of a chunk. */
  function Letters(chunk: seq<byte>): (r: seq<seq<byte>>)
    ensures |r| == |chunk|
  {
    if chunk == [] then [] else [Symbol(chunk[0])] + Letters(chunk[1..])
  }

  /** The chunk spelled in the alphabet. */
  function Spelled(chunk: seq<byte>): seq<byte> {
    if chunk == [] then [] else Symbol(chunk[0]) + Spelled(chunk[1..])
  }

  /** The bytes a token stands for: each code point read leniently and looked
      up; code points outside the alphabet are dropped. */
  function TokenBytes(token: seq<byte>): seq<byte> {
    if token == [] then []
    else
      var (cp, n) := Utf8.Lenient(token);
      (match FirstByte(cp, 0) case Some(b) => [b] case None => []) + TokenBytes(token[n..])
  }

  lemma SymbolReads(b: byte, rest: seq<byte>)
    ensures TokenBytes(Symbol(b) + rest) == [b] + TokenBytes(rest)
  {
    ByteToCpFacts(b, b);
    Utf8.LenientReadsBack(ByteToCp(b), rest);
    FirstByteInverts(b);
    var token := Symbol(b) + rest;
    assert token[|Symbol(b)|..] == rest;
  }

  /** Reading undoes spelling. */
  lemma {:induction false} SpelledReads(chunk: seq<byte>)
    ensures TokenBytes(Spelled(chunk)) == chunk
  {
    if chunk != [] {
      SpelledReads(chunk[1..]);
      SymbolReads(chunk[0], Spelled(chunk[1..]));
    }
  }

  lemma {:induction false} SpelledConcat(a: seq<byte>, b: seq<byte>)
    ensures Spelled(a + b) == Spelled(a) + Spelled(b)
  {
    hide Symbol;
    if a == [] {
      assert a + b == b;
    } else {
      SpelledConcat(a[1..], b);
      assert (a + b)[1..] == a[1..] + b;
    }
  }

  /** No spelled byte is a space, so the "a b" form of a merge key splits in one way only. */
  lemma {:induction false} SpelledHasNoSpace(chunk: seq<byte>)
    ensures 0x20 !in Spelled(chunk)
  {
    if chunk != [] {
      SpelledHasNoSpace(chunk[1..]);
      ByteToCpFacts(chunk[0], chunk[0]);
    }
  }

  // ---------------------------------------------------------------- the loops

  method Spell(chunk: seq<byte>) returns (chars: seq<seq<byte>>)
    ensures chars == Letters(chunk)
  {
    hide Symbol;
    chars := [];
    var i := 0;
    while i < |chunk|
      invariant 0 <= i <= |chunk|
      invariant Letters(chunk) == chars + Letters(chunk[i..])
    {
      assert chunk[i..][1..] == chunk[i + 1..];
      chars := chars + [Symbol(chunk[i])];
      i := i + 1;
    }
  }

  /** Appends what token stands for, code point by code point. */
  method ReadToken(token: seq<byte>) returns (bytes: seq<byte>)
    ensures bytes == TokenBytes(token)
  {
    hide TokenBytes, Utf8.Lenient, FirstByte;
    bytes := [];
    var i := 0;
    assert token[0..] == token;
    while i < |token|
      invariant 0 <= i <= |token|
      invariant TokenBytes(token) == bytes + TokenBytes(token[i..])
    {
      var (cp, n) := Utf8.Lenient(token[i..]);
      assert token[i..][n..] == token[i + n..];
      TokenBytesStep(token[i..]);
      var found := LookUp(cp);
      if found.Some? {
        bytes := bytes + [found.value];
      }
      i := i + n;
    }
    TokenBytesStep(token[i..]);
  }

  lemma TokenBytesStep(token: seq<byte>)
    ensures token == [] ==> TokenBytes(token) == []
    ensures token != [] ==> var (cp, n) := Utf8.Lenient(token); var b := FirstByte(cp, 0);
      TokenBytes(token) == (if b.Some? then [b.value] else []) + TokenBytes(token[n..])
  {
  }

  method LookUp(cp: nat) returns (found: Option<byte>)
    ensures found == FirstByte(cp, 0)
  {
    var b := 0;
    while b < 256
      invariant 0 <= b <= 256
      invariant FirstByte(cp, 0) == FirstByte(cp, b)
    {
      if ByteToCp(b) == cp {
        return Some(b);
      }
      b := b + 1;
    }
    return None;
  }
}
