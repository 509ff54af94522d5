/** The splitting of plain text into chunks before merging: lenient decoding
    into code points, then one alternative after the other at each position.
    Which code points are letters, numbers and spaces is a parameter. */
module PreTokenize {
  import opened Bytes
  import Utf8

  datatype Classes = Classes(letter: nat -> bool, number: nat -> bool, space: nat -> bool)
  {
    predicate LetterNumber(cp: nat) { letter(cp) || number(cp) }

    /** Neither space nor letter nor number. */
    predicate Other(cp: nat) { !space(cp) && !letter(cp) && !number(cp) }

    function Others(): nat -> bool { (cp: nat) => Other(cp) }
  }

  predicate Newline(cp: nat) { cp == 0x0D || cp == 0x0A }

  /** A code point and the offset of its first byte. */
  datatype Cp = Cp(v: nat, off: nat)

  // ---------------------------------------------------------------- code points and offsets

  function Cps(s: seq<byte>, i: nat): seq<Cp>
    requires i <= |s|
    decreases |s| - i
  {
    if i == |s| then []
    else
      var (v, n) := Utf8.Lenient(s[i..]);
      [Cp(v, i)] + Cps(s, i + n)
  }

  /** Where code point j starts; the end of the text after the last one. */
  function Offset(cps: seq<Cp>, total: nat, j: nat): nat {
    if j < |cps| then cps[j].off else total
  }

  /** Offsets grow strictly and stay inside the text. */
  ghost predicate Ordered(cps: seq<Cp>, total: nat) {
    forall i, j :: 0 <= i < j <= |cps| ==> Offset(cps, total, i) < Offset(cps, total, j)
  }

  lemma {:induction false} CpsOrdered(s: seq<byte>, i: nat)
    requires i <= |s|
    ensures Ordered(Cps(s, i), |s|) && Offset(Cps(s, i), |s|, 0) == i
    decreases |s| - i
  {
    if i < |s| {
      var (v, n) := Utf8.Lenient(s[i..]);
      CpsOrdered(s, i + n);
      var cps, rest := Cps(s, i), Cps(s, i + n);
      forall a, b | 0 <= a < b <= |cps| ensures Offset(cps, |s|, a) < Offset(cps, |s|, b) {
        assert Offset(cps, |s|, b) == Offset(rest, |s|, b - 1);
        assert a > 0 ==> Offset(cps, |s|, a) == Offset(rest, |s|, a - 1);
        assert b > 1 ==> Offset(rest, |s|, 0) < Offset(rest, |s|, b - 1);
      }
    }
  }

  method DecodeCps(s: seq<byte>) returns (out: seq<Cp>)
    ensures out == Cps(s, 0)
  {
    hide Utf8.Lenient, Cps;
    out := [];
    var i := 0;
    while i < |s|
      invariant 0 <= i <= |s|
      invariant Cps(s, 0) == out + Cps(s, i)
    {
      CpsStep(s, i);
      var (v, n) := Utf8.Lenient(s[i..]);
      out := out + [Cp(v, i)];
      i := i + n;
    }
    CpsStep(s, i);
  }

  lemma CpsStep(s: seq<byte>, i: nat)
    requires i <= |s|
    ensures i == |s| ==> Cps(s, i) == []
    ensures i < |s| ==> var (v, n) := Utf8.Lenient(s[i..]); Cps(s, i) == [Cp(v, i)] + Cps(s, i + n)
  {
  }

  // ---------------------------------------------------------------- the alternatives

  /** The end of the maximal run of code points satisfying p from k on. */
  function RunEnd(p: nat -> bool, cps: seq<Cp>, k: nat): (e: nat)
    requires k <= |cps|
    ensures k <= e <= |cps|
    ensures forall m :: k <= m < e ==> p(cps[m].v)
    ensures e < |cps| ==> !p(cps[e].v)
    decreases |cps| - k
  {
    if k < |cps| && p(cps[k].v) then RunEnd(p, cps, k + 1) else k
  }

  /** asciiCaseEq, for a lower-case letter c. */
  predicate AsciiCaseEq(cp: nat, c: nat)
    requires 0x61 <= c <= 0x7A
  {
    if 0x41 <= cp <= 0x5A then cp == c || cp == c - 0x41 + 0x61
    else if 0x61 <= cp <= 0x7A then cp == c || cp == c - 0x61 + 0x41
    else cp == c
  }

  /** Despite its name the comparison folds no case: it is plain equality. */
  lemma AsciiCaseEqFoldsNothing(cp: nat, c: nat)
    requires 0x61 <= c <= 0x7A
    ensures AsciiCaseEq(cp, c) <==> cp == c
  {
  }

  /** The end of the contraction ('s 't 're 've 'm 'll 'd) at i. */
  function Contraction(cps: seq<Cp>, i: nat): (e: Option<nat>)
    requires i < |cps|
    ensures e.Some? ==> i < e.value <= |cps|
  {
    var j := i + 1;
    if cps[i].v != 0x27 || j >= |cps| then None
    else if AsciiCaseEq(cps[j].v, 0x73) || AsciiCaseEq(cps[j].v, 0x74) then Some(j + 1)
    else if j + 1 < |cps| && AsciiCaseEq(cps[j].v, 0x72) && AsciiCaseEq(cps[j + 1].v, 0x65) then Some(j + 2)
    else if j + 1 < |cps| && AsciiCaseEq(cps[j].v, 0x76) && AsciiCaseEq(cps[j + 1].v, 0x65) then Some(j + 2)
    else if AsciiCaseEq(cps[j].v, 0x6D) then Some(j + 1)
    else if j + 1 < |cps| && AsciiCaseEq(cps[j].v, 0x6C) && AsciiCaseEq(cps[j + 1].v, 0x6C) then Some(j + 2)
    else if AsciiCaseEq(cps[j].v, 0x64) then Some(j + 1)
    else None
  }

  /** A run of letters, with at most one leading mark that is no newline, letter or number. */
  function WordEnd(cls: Classes, cps: seq<Cp>, i: nat): (e: Option<nat>)
    requires i < |cps|
    ensures e.Some? ==> i < e.value <= |cps|
  {
    var c := cps[i].v;
    if cls.letter(c) then Some(RunEnd(cls.letter, cps, i + 1))
    else if !Newline(c) && !cls.LetterNumber(c) && i + 1 < |cps| && cls.letter(cps[i + 1].v)
    then Some(RunEnd(cls.letter, cps, i + 1))
    else None
  }

  /** Up to three numbers. */
  function DigitsEnd(cls: Classes, cps: seq<Cp>, i: nat): (e: Option<nat>)
    requires i < |cps|
    ensures e.Some? ==> i < e.value <= |cps|
  {
    var run := RunEnd(cls.number, cps, i);
    if run == i then None else Some(if run <= i + 3 then run else i + 3)
  }

  /** At most one space, then other marks, then newlines. */
  function MarksEnd(cls: Classes, cps: seq<Cp>, i: nat): (e: Option<nat>)
    requires i < |cps|
    ensures e.Some? ==> i < e.value <= |cps|
  {
    var k := if cls.space(cps[i].v) then i + 1 else i;
    if k < |cps| && cls.Other(cps[k].v)
    then Some(RunEnd(Newline, cps, RunEnd(cls.Others(), cps, k)))
    else None
  }

  /** The last newline in [i, k). */
  function LastNewline(cps: seq<Cp>, i: nat, k: nat): (m: Option<nat>)
    requires i <= k <= |cps|
    ensures m.Some? ==> i <= m.value < k && Newline(cps[m.value].v)
    ensures forall n :: (if m.Some? then m.value + 1 else i) <= n < k ==> !Newline(cps[n].v)
  {
    if k == i then None else if Newline(cps[k - 1].v) then Some(k - 1) else LastNewline(cps, i, k - 1)
  }

  /** White space up to its last newline. */
  function BreakEnd(cls: Classes, cps: seq<Cp>, i: nat): (e: Option<nat>)
    requires i < |cps|
    ensures e.Some? ==> i < e.value <= |cps|
  {
    match LastNewline(cps, i, RunEnd(cls.space, cps, i))
    case Some(m) => Some(m + 1)
    case None => None
  }

  /** White space; before something else the last space of two or more is left to it. */
  function SpacesEnd(cls: Classes, cps: seq<Cp>, i: nat): (e: Option<nat>)
    requires i < |cps|
    ensures e.Some? ==> i < e.value <= |cps|
  {
    var k := RunEnd(cls.space, cps, i);
    if k == i then None else Some(if k < |cps| && k >= i + 2 then k - 1 else k)
  }

  function OrElse(a: Option<nat>, b: Option<nat>): Option<nat> {
    if a.Some? then a else b
  }

  /** The end of the chunk that starts at i: the first alternative that
      matches, a single code point when none does. */
  function ChunkEnd(cls: Classes, cps: seq<Cp>, i: nat): (e: nat)
    requires i < |cps|
    ensures i < e <= |cps|
  {
    match OrElse(Contraction(cps, i), OrElse(WordEnd(cls, cps, i), OrElse(DigitsEnd(cls, cps, i),
            OrElse(MarksEnd(cls, cps, i), OrElse(BreakEnd(cls, cps, i), SpacesEnd(cls, cps, i))))))
    case Some(e) => e
    case None => i + 1
  }

  /** Some alternative always matches: what is no letter and no number is a
      space or another mark. */
  lemma SomeAlternativeMatches(cls: Classes, cps: seq<Cp>, i: nat)
    requires i < |cps|
    ensures WordEnd(cls, cps, i).Some? || DigitsEnd(cls, cps, i).Some?
         || MarksEnd(cls, cps, i).Some? || SpacesEnd(cls, cps, i).Some?
  {
    assert RunEnd(cls.number, cps, i) == i ==> !cls.number(cps[i].v);
    assert RunEnd(cls.space, cps, i) == i ==> !cls.space(cps[i].v);
  }

  // ---------------------------------------------------------------- the chunks

  function Chunks(cls: Classes, text: seq<byte>, cps: seq<Cp>, i: nat): seq<seq<byte>>
    requires i <= |cps| && Ordered(cps, |text|)
    decreases |cps| - i
  {
    if i == |cps| then []
    else
      var j := ChunkEnd(cls, cps, i);
      assert Offset(cps, |text|, i) < Offset(cps, |text|, j) <= Offset(cps, |text|, |cps|);
      [text[Offset(cps, |text|, i)..Offset(cps, |text|, j)]] + Chunks(cls, text, cps, j)
  }

  function Split(cls: Classes, text: seq<byte>): seq<seq<byte>> {
    CpsOrdered(text, 0);
    Chunks(cls, text, Cps(text, 0), 0)
  }

  lemma {:induction false} ChunksTile(cls: Classes, text: seq<byte>, cps: seq<Cp>, i: nat)
    requires i <= |cps| && Ordered(cps, |text|) && Offset(cps, |text|, i) <= |text|
    ensures Join(Chunks(cls, text, cps, i)) == text[Offset(cps, |text|, i)..]
    ensures forall k :: 0 <= k < |Chunks(cls, text, cps, i)| ==> Chunks(cls, text, cps, i)[k] != []
    decreases |cps| - i
  {
    if i < |cps| {
      hide ChunkEnd;
      var j := ChunkEnd(cls, cps, i);
      var a, b := Offset(cps, |text|, i), Offset(cps, |text|, j);
      assert a < b <= Offset(cps, |text|, |cps|);
      ChunksTile(cls, text, cps, j);
      assert text[a..] == text[a..b] + text[b..];
    }
  }

  /** The chunks are non-empty and tile the text exactly, whatever its bytes
      and whatever the character classes. */
  lemma SplitTiles(cls: Classes, text: seq<byte>)
    ensures Join(Split(cls, text)) == text
    ensures forall k :: 0 <= k < |Split(cls, text)| ==> Split(cls, text)[k] != []
  {
    CpsOrdered(text, 0);
    ChunksTile(cls, text, Cps(text, 0), 0);
  }

  // ---------------------------------------------------------------- what a chunk looks like

  /** Letters, numbers and spaces are different things, newlines are spaces, and
      the apostrophe is none of them. */
  ghost predicate Apart(cls: Classes) {
    && (forall cp :: Newline(cp) ==> cls.space(cp))
    && (forall cp :: !(cls.letter(cp) && cls.number(cp)))
    && (forall cp :: cls.space(cp) ==> !cls.LetterNumber(cp))
  }

  /** From a to b every code point satisfies p, and the one at b, if any, does not. */
  ghost predicate IsRun(p: nat -> bool, cps: seq<Cp>, a: int, b: int) {
    && 0 <= a <= b <= |cps|
    && (forall k :: a <= k < b ==> p(cps[k].v))
    && (b < |cps| ==> !p(cps[b].v))
  }

  /** 's 't 'm 'd 're 've 'll */
  ghost predicate IsContraction(cps: seq<Cp>, i: nat, j: int) {
    && i + 1 < j <= |cps| && cps[i].v == 0x27
    && var c := cps[i + 1].v;
       if j == i + 2 then c == 0x73 || c == 0x74 || c == 0x6D || c == 0x64
       else j == i + 3 &&
            var d := cps[i + 2].v; (c == 0x72 && d == 0x65) || (c == 0x76 && d == 0x65) || (c == 0x6C && d == 0x6C)
  }

  /** A whole run of letters, with at most one mark or space in front, no newline. */
  ghost predicate IsWord(cls: Classes, cps: seq<Cp>, i: nat, j: int) {
    && i < j <= |cps| && IsRun(cls.letter, cps, i + 1, j) && cls.letter(cps[j - 1].v)
    && !Newline(cps[i].v) && !cls.number(cps[i].v)
  }

  /** Numbers, at most three, and fewer only at the end of their run. */
  ghost predicate IsNumber(cls: Classes, cps: seq<Cp>, i: nat, j: int) {
    && i < j <= |cps| && j <= i + 3
    && (forall k :: i <= k < j ==> cls.number(cps[k].v))
    && (j < i + 3 && j < |cps| ==> !cls.number(cps[j].v))
  }

  /** A whole run of marks from a to b, with at most one space in front, and all
      the newlines behind it. */
  ghost predicate IsMarks(cls: Classes, cps: seq<Cp>, i: nat, a: int, b: int, j: int) {
    && i <= a <= i + 1 && a < b && (a > i ==> i < |cps| && cls.space(cps[i].v))
    && IsRun(cls.Others(), cps, a, b) && IsRun(Newline, cps, b, j)
  }

  ghost predicate IsMarked(cls: Classes, cps: seq<Cp>, i: nat, j: int) {
    exists a, b :: IsMarks(cls, cps, i, a, b, j)
  }

  /** White space out of a run that ends at end: up to the last newline of the run;
      without a newline the whole run, save the last of several spaces when
      something follows. */
  ghost predicate IsSpace(cls: Classes, cps: seq<Cp>, i: nat, j: int, end: int) {
    && i < j <= end && IsRun(cls.space, cps, i, end)
    && (forall k :: j <= k < end ==> !Newline(cps[k].v))
    && (Newline(cps[j - 1].v)
        || ((forall k :: i <= k < end ==> !Newline(cps[k].v))
            && j == if end < |cps| && end - i >= 2 then end - 1 else end))
  }

  ghost predicate IsSpaced(cls: Classes, cps: seq<Cp>, i: nat, j: int) {
    exists end :: IsSpace(cls, cps, i, j, end)
  }

  /** What makes the code points from i to j one chunk: the first of the shapes that
      fits at i. */
  ghost predicate IsChunk(cls: Classes, cps: seq<Cp>, i: nat, j: int) {
    if exists e :: IsContraction(cps, i, e) then IsContraction(cps, i, j)
    else if exists e :: IsWord(cls, cps, i, e) then IsWord(cls, cps, i, j)
    else if exists e :: IsNumber(cls, cps, i, e) then IsNumber(cls, cps, i, j)
    else if exists e :: IsMarked(cls, cps, i, e) then IsMarked(cls, cps, i, j)
    else IsSpaced(cls, cps, i, j)
  }

  lemma RunExact(p: nat -> bool, cps: seq<Cp>, a: nat, b: int)
    requires a <= |cps|
    ensures IsRun(p, cps, a, b) <==> b == RunEnd(p, cps, a)
  {
    var e := RunEnd(p, cps, a);
    assert a <= b < e ==> p(cps[b].v);
    assert e < |cps| ==> !p(cps[e].v);
  }

  predicate Ends(o: Option<nat>, j: int) {
    o.Some? && o.value == j
  }

  lemma ContractionExact(cps: seq<Cp>, i: nat, j: int)
    requires i < |cps|
    ensures IsContraction(cps, i, j) <==> Ends(Contraction(cps, i), j)
  {
  }

  lemma WordExact(cls: Classes, cps: seq<Cp>, i: nat, j: int)
    requires i < |cps| && Apart(cls)
    ensures IsWord(cls, cps, i, j) <==> Ends(WordEnd(cls, cps, i), j)
  {
    RunExact(cls.letter, cps, i + 1, j);
    hide RunEnd;
  }

  lemma NumberExact(cls: Classes, cps: seq<Cp>, i: nat, j: int)
    requires i < |cps|
    ensures IsNumber(cls, cps, i, j) <==> Ends(DigitsEnd(cls, cps, i), j)
  {
    hide RunEnd;
    var run := RunEnd(cls.number, cps, i);
    assert run < |cps| ==> !cls.number(cps[run].v);
    assert i <= j < run ==> cls.number(cps[j].v);
  }

  lemma MarksExact(cls: Classes, cps: seq<Cp>, i: nat, j: int)
    requires i < |cps|
    ensures IsMarked(cls, cps, i, j) <==> Ends(MarksEnd(cls, cps, i), j)
  {
    hide RunEnd, IsRun;
    var k: nat := if cls.space(cps[i].v) then i + 1 else i;
    if a, b :| IsMarks(cls, cps, i, a, b, j) {
      MarksStart(cls, cps, i, a, b, j);
      RunExact(cls.Others(), cps, k, b);
      RunExact(Newline, cps, b, j);
    }
    if MarksEnd(cls, cps, i).Some? {
      var b := RunEnd(cls.Others(), cps, k);
      RunExact(cls.Others(), cps, k, b);
      RunExact(Newline, cps, b, RunEnd(Newline, cps, b));
      assert b > k;
      assert IsMarks(cls, cps, i, k, b, MarksEnd(cls, cps, i).value);
    }
  }

  lemma MarksStart(cls: Classes, cps: seq<Cp>, i: nat, a: int, b: int, j: int)
    requires i < |cps| && IsMarks(cls, cps, i, a, b, j)
    ensures a == (if cls.space(cps[i].v) then i + 1 else i) && a < |cps| && cls.Other(cps[a].v)
    ensures IsRun(cls.Others(), cps, a, b) && IsRun(Newline, cps, b, j) && 0 <= b <= |cps|
  {
    assert cls.Others()(cps[a].v);
  }

  lemma SpaceExact(cls: Classes, cps: seq<Cp>, i: nat, j: int)
    requires i < |cps|
    ensures IsSpaced(cls, cps, i, j) <==> Ends(OrElse(BreakEnd(cls, cps, i), SpacesEnd(cls, cps, i)), j)
  {
    hide RunEnd, LastNewline;
    var run := RunEnd(cls.space, cps, i);
    RunExact(cls.space, cps, i, run);
    var e := OrElse(BreakEnd(cls, cps, i), SpacesEnd(cls, cps, i));
    if end :| IsSpace(cls, cps, i, j, end) {
      RunExact(cls.space, cps, i, end);
    }
    if e.Some? {
      assert IsSpace(cls, cps, i, e.value, run);
    }
  }

  /** The splitter's chunk at i is the one chunk there is at i: the shapes decide
      its end, whatever the text. */
  lemma ChunkExact(cls: Classes, cps: seq<Cp>, i: nat, j: int)
    requires i < |cps| && Apart(cls)
    ensures IsChunk(cls, cps, i, j) <==> j == ChunkEnd(cls, cps, i)
  {
    hide IsContraction, IsWord, IsNumber, IsMarked, IsSpaced, Contraction, WordEnd, DigitsEnd, MarksEnd, BreakEnd,
         SpacesEnd;
    SomeAlternativeMatches(cls, cps, i);
    var c, w := Contraction(cps, i), WordEnd(cls, cps, i);
    var n, m := DigitsEnd(cls, cps, i), MarksEnd(cls, cps, i);
    forall e ensures IsContraction(cps, i, e) <==> Ends(c, e) { ContractionExact(cps, i, e); }
    forall e ensures IsWord(cls, cps, i, e) <==> Ends(w, e) { WordExact(cls, cps, i, e); }
    forall e ensures IsNumber(cls, cps, i, e) <==> Ends(n, e) { NumberExact(cls, cps, i, e); }
    forall e ensures IsMarked(cls, cps, i, e) <==> Ends(m, e) { MarksExact(cls, cps, i, e); }
    assert c.Some? ==> IsContraction(cps, i, c.value);
    assert w.Some? ==> IsWord(cls, cps, i, w.value);
    assert n.Some? ==> IsNumber(cls, cps, i, n.value);
    assert m.Some? ==> IsMarked(cls, cps, i, m.value);
    SpaceExact(cls, cps, i, j);
  }

  /** The cuts divide the code points from cuts[0] on into the shapes of chunks,
      and the chunks are the bytes between them. */
  ghost predicate CutInto(cls: Classes, text: seq<byte>, cps: seq<Cp>, cuts: seq<nat>, chunks: seq<seq<byte>>) {
    && |cuts| == |chunks| + 1 && cuts[|chunks|] == |cps|
    && forall k :: 0 <= k < |chunks| ==> CutAt(cls, text, cps, cuts[k], cuts[k + 1], chunks[k])
  }

  ghost predicate CutAt(cls: Classes, text: seq<byte>, cps: seq<Cp>, i: nat, j: nat, chunk: seq<byte>) {
    && IsChunk(cls, cps, i, j)
    && Offset(cps, |text|, i) <= Offset(cps, |text|, j) <= |text|
    && chunk == text[Offset(cps, |text|, i)..Offset(cps, |text|, j)]
  }

  lemma {:induction false} ChunksAreCut(cls: Classes, text: seq<byte>, cps: seq<Cp>, i: nat) returns (cuts: seq<nat>)
    requires i <= |cps| && Ordered(cps, |text|) && Apart(cls)
    ensures CutInto(cls, text, cps, cuts, Chunks(cls, text, cps, i)) && cuts[0] == i
    decreases |cps| - i
  {
    hide ChunkEnd, IsChunk;
    if i == |cps| {
      cuts := [i];
    } else {
      var j := ChunkEnd(cls, cps, i);
      ChunkExact(cls, cps, i, j);
      var rest := ChunksAreCut(cls, text, cps, j);
      assert Offset(cps, |text|, i) < Offset(cps, |text|, j) <= Offset(cps, |text|, |cps|);
      cuts := [i] + rest;
      var chunks, tail := Chunks(cls, text, cps, i), Chunks(cls, text, cps, j);
      hide Chunks, CutAt, Ordered;
      assert CutAt(cls, text, cps, i, j, chunks[0]);
      forall k | 0 <= k < |chunks| ensures CutAt(cls, text, cps, cuts[k], cuts[k + 1], chunks[k]) {
        if k > 0 { assert CutAt(cls, text, cps, rest[k - 1], rest[k], tail[k - 1]); }
      }
    }
  }

  /** The text is cut from its first code point on into contractions, words, groups
      of up to three numbers, marks and white space. */
  ghost predicate SplitsInto(cls: Classes, text: seq<byte>, chunks: seq<seq<byte>>) {
    exists cuts :: CutInto(cls, text, Cps(text, 0), cuts, chunks) && cuts[0] == 0
  }

  lemma SplitShapes(cls: Classes, text: seq<byte>)
    requires Apart(cls)
    ensures SplitsInto(cls, text, Split(cls, text))
  {
    hide CutInto, Cps, Chunks;
    CpsOrdered(text, 0);
    var cuts := ChunksAreCut(cls, text, Cps(text, 0), 0);
  }

  // ---------------------------------------------------------------- the loops

  method ScanRun(p: nat -> bool, cps: seq<Cp>, start: nat) returns (k: nat)
    requires start <= |cps|
    ensures k == RunEnd(p, cps, start)
  {
    k := start;
    while k < |cps| && p(cps[k].v)
      invariant start <= k <= |cps|
      invariant RunEnd(p, cps, start) == RunEnd(p, cps, k)
    {
      k := k + 1;
    }
  }

  method ScanDigits(cls: Classes, cps: seq<Cp>, i: nat) returns (k: nat)
    requires i < |cps| && cls.number(cps[i].v)
    ensures DigitsEnd(cls, cps, i) == Some(k)
  {
    k := i + 1;
    var n := 1;
    while k < |cps| && cls.number(cps[k].v) && n < 3
      invariant k <= |cps| && k == i + n && n <= 3
      invariant RunEnd(cls.number, cps, i) == RunEnd(cls.number, cps, k)
    {
      k, n := k + 1, n + 1;
    }
  }

  method ScanSpaces(cls: Classes, cps: seq<Cp>, i: nat) returns (lastNl: Option<nat>)
    requires i < |cps|
    ensures lastNl == LastNewline(cps, i, RunEnd(cls.space, cps, i))
  {
    var k := i;
    lastNl := None;
    while k < |cps| && cls.space(cps[k].v)
      invariant i <= k <= |cps|
      invariant RunEnd(cls.space, cps, i) == RunEnd(cls.space, cps, k)
      invariant lastNl == LastNewline(cps, i, k)
    {
      if Newline(cps[k].v) {
        lastNl := Some(k);
      }
      k := k + 1;
    }
  }

  /** One round of the splitting loop: the position after the chunk at i. */
  method NextChunk(cls: Classes, cps: seq<Cp>, i: nat) returns (j: nat)
    requires i < |cps|
    ensures j == ChunkEnd(cls, cps, i)
  {
    var c := Contraction(cps, i);
    if c.Some? {
      return c.value;
    }
    var c0 := cps[i].v;
    if cls.letter(c0) {
      j := ScanRun(cls.letter, cps, i + 1);
      return;
    } else if !Newline(c0) && !cls.LetterNumber(c0) {
      if i + 1 < |cps| && cls.letter(cps[i + 1].v) {
        j := ScanRun(cls.letter, cps, i + 1);
        return;
      }
    }
    if cls.number(c0) {
      j := ScanDigits(cls, cps, i);
      return;
    }
    var k := i;
    if cls.space(cps[k].v) {
      k := k + 1;
    }
    if k < |cps| && cls.Other(cps[k].v) {
      k := ScanRun(cls.Others(), cps, k);
      j := ScanRun(Newline, cps, k);
      return;
    }
    var lastNl := ScanSpaces(cls, cps, i);
    if lastNl.Some? {
      return lastNl.value + 1;
    }
    k := ScanRun(cls.space, cps, i);
    var run := k - i;
    assert run >= 1;  // the loop's own last resort, one code point, is never needed
    var afterNotS := k == |cps| || cls.space(cps[k].v);
    var take := if afterNotS then run else if run >= 2 then run - 1 else 0;
    if take > 0 {
      return i + take;
    }
    return k;
  }

  method SplitText(cls: Classes, text: seq<byte>) returns (chunks: seq<seq<byte>>)
    ensures chunks == Split(cls, text)
    ensures Apart(cls) ==> SplitsInto(cls, text, chunks)
  {
    hide ChunkEnd, Cps, Apart, SplitsInto;
    if Apart(cls) { SplitShapes(cls, text); }
    var cps := DecodeCps(text);
    CpsOrdered(text, 0);
    chunks := [];
    var i := 0;
    while i < |cps|
      invariant 0 <= i <= |cps|
      invariant Chunks(cls, text, cps, 0) == chunks + Chunks(cls, text, cps, i)
    {
      var j := NextChunk(cls, cps, i);
      var startOff := cps[i].off;
      var endOff := if j < |cps| then cps[j].off else |text|;
      assert Offset(cps, |text|, i) < Offset(cps, |text|, j) <= Offset(cps, |text|, |cps|);
      chunks := chunks + [text[startOff..endOff]];
      i := j;
    }
  }
}
