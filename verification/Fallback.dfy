/** What encoding loses when a merge leads to a piece the vocabulary lacks: the
    fallback over the piece's characters drops its last byte when that byte's
    symbol is a single byte long. */
module Fallback {
  import opened Bytes
  import opened Bpe
  import opened PreTokenize
  import opened ByteLevel
  import opened TokenTables
  import opened RoundTrip

  /** Tables that are good but for their merges. */
  ghost predicate GoodTokens(t: Tables) {
    IdsInvert(t) && BytesPresent(t) && AddedApart(t)
  }

  /** The vocabulary lacks the piece and its last symbol is one byte long. */
  predicate Loses(vocab: map<Token, int>, piece: Token) {
    piece !in vocab && piece != [] && piece[|piece| - 1] < 0x80
  }

  // ---------------------------------------------------------------- one piece

  lemma SpelledHead(c: seq<byte>)
    requires c != []
    ensures Spelled(c) == Symbol(c[0]) + Spelled(c[1..])
    ensures |c| == 1 ==> Spelled(c[1..]) == [] && Spelled(c) == Symbol(c[0])
    ensures |c| > 1 ==> |Spelled(c[1..])| >= 1
  {
    hide Symbol;
    if |c| > 1 {
      assert Spelled(c[1..]) == Symbol(c[1..][0]) + Spelled(c[1..][1..]);
    }
  }

  lemma SymbolShape(b: byte)
    ensures |Symbol(b)| <= 2 && LeadLen(Symbol(b)[0]) == |Symbol(b)|
    ensures |Symbol(b)| == 1 <==> Symbol(b)[|Symbol(b)| - 1] < 0x80
  {
    ByteToCpFacts(b, b);
  }

  lemma SymbolDecodes(b: byte)
    ensures TokenBytes(Symbol(b)) == [b]
  {
    SymbolReads(b, []);
    assert Symbol(b) + [] == Symbol(b);
  }

  /** The fallback over a spelled piece takes its symbols one by one, and stops
      before a last one-byte symbol. */
  lemma FallbackSpelled(vocab: map<Token, int>, c: seq<byte>)
    requires c != [] && Symbol(c[0]) in vocab
    ensures FallbackIds(vocab, Spelled(c)) ==
      if |Spelled(c)| <= 1 then [] else [vocab[Symbol(c[0])]] + FallbackIds(vocab, Spelled(c[1..]))
    ensures |Spelled(c)| <= 1 <==> |c| == 1 && |Symbol(c[0])| == 1
  {
    hide Symbol, Spelled;
    SpelledHead(c);
    SymbolShape(c[0]);
    assert Spelled(c)[..|Symbol(c[0])|] == Symbol(c[0]);
    assert Spelled(c)[|Symbol(c[0])|..] == Spelled(c[1..]);
  }

  /** A piece missing from the vocabulary keeps all its bytes, except the last
      one when that byte's symbol is a single byte long. */
  lemma {:induction false} FallbackLoses(t: Tables, c: seq<byte>, skip: bool)
    requires GoodTokens(t) && c != []
    ensures DecodedBytes(t, FallbackIds(t.vocab, Spelled(c)), skip)
         == if |Symbol(c[|c| - 1])| == 1 then c[..|c| - 1] else c
  {
    assert Symbol(c[0]) in t.vocab;
    FallbackSpelled(t.vocab, c);
    hide IdsInvert, AddedApart, BytesPresent, Symbol, Spelled, DecodedBytes, FallbackIds;
    DecodedNothing(t, skip);
    if |Spelled(c)| > 1 {
      VocabularyIdDecodes(t, Symbol(c[0]), skip);
      SymbolDecodes(c[0]);
      DecodedConcat(t, [t.vocab[Symbol(c[0])]], FallbackIds(t.vocab, Spelled(c[1..])), skip);
      if |c| > 1 {
        FallbackLoses(t, c[1..], skip);
        TailLoses(c, skip);
      } else {
        assert FallbackIds(t.vocab, Spelled(c[1..])) == [] by { SpelledHead(c); NoFallback(t.vocab); }
        assert c == [c[0]];
      }
    }
  }

  lemma NoFallback(vocab: map<Token, int>)
    ensures FallbackIds(vocab, []) == []
  {
  }

  lemma TailLoses(c: seq<byte>, skip: bool)
    requires |c| > 1
    ensures c == [c[0]] + c[1..] && c[..|c| - 1] == [c[0]] + c[1..][..|c[1..]| - 1]
  {
  }

  /** The last byte of a spelled piece tells whether its last symbol is short. */
  lemma {:induction false} SpelledLast(c: seq<byte>)
    requires c != []
    ensures Spelled(c) != [] && (Spelled(c)[|Spelled(c)| - 1] < 0x80 <==> |Symbol(c[|c| - 1])| == 1)
  {
    hide Symbol, Spelled;
    SpelledHead(c);
    if |c| > 1 {
      SpelledLast(c[1..]);
      LastOfSum(Symbol(c[0]), Spelled(c[1..]));
    } else {
      SymbolShape(c[0]);
    }
  }

  lemma LastOfSum<T>(a: seq<T>, b: seq<T>)
    requires b != []
    ensures (a + b)[|a + b| - 1] == b[|b| - 1]
  {
  }

  lemma SpelledLoses(vocab: map<Token, int>, c: seq<byte>)
    requires c != []
    ensures Loses(vocab, Spelled(c)) <==> Spelled(c) !in vocab && |Symbol(c[|c| - 1])| == 1
  {
    hide Symbol, Spelled;
    SpelledLast(c);
  }

  lemma PieceIdsAre(vocab: map<Token, int>, piece: Token)
    ensures PieceIds(vocab, piece) == if piece in vocab then [vocab[piece]] else FallbackIds(vocab, piece)
  {
  }

  lemma PieceDecodes(t: Tables, c: seq<byte>, skip: bool)
    requires GoodTokens(t) && c != []
    ensures DecodedBytes(t, PieceIds(t.vocab, Spelled(c)), skip)
         == if Loses(t.vocab, Spelled(c)) then c[..|c| - 1] else c
  {
    hide IdsInvert, AddedApart, BytesPresent, Symbol, Spelled, DecodedBytes, FallbackIds, PieceIds, Loses, TokenBytes;
    SpelledLoses(t.vocab, c);
    PieceIdsAre(t.vocab, Spelled(c));
    if Spelled(c) in t.vocab {
      VocabularyIdDecodes(t, Spelled(c), skip);
      SpelledReads(c);
    } else {
      FallbackLoses(t, c, skip);
    }
  }

  // ---------------------------------------------------------------- one chunk

  ghost predicate NoEmptyPiece(word: seq<Token>) {
    forall i :: 0 <= i < |word| ==> word[i] != []
  }

  lemma ReplacePairFull(word: seq<Token>, i: nat)
    requires NoEmptyPiece(word) && i + 1 < |word|
    ensures NoEmptyPiece(ReplacePair(word, i))
  {
    var w := ReplacePair(word, i);
    forall j | 0 <= j < |w| ensures w[j] != [] {
      assert w[j] == if j == i then word[i] + word[i + 1] else word[if j < i then j else j + 1];
    }
  }

  lemma {:induction false} MergedFull(merges: map<Token, int>, word: seq<Token>)
    requires NoEmptyPiece(word)
    ensures NoEmptyPiece(Merged(merges, word))
    decreases |word|
  {
    hide NoEmptyPiece;
    if |word| >= 2 {
      var i := BestPair(merges, word, |word| - 1).0;
      if i >= 0 {
        ReplacePairFull(word, i);
        MergedFull(merges, ReplacePair(word, i));
      }
    }
  }

  lemma LettersFull(chunk: seq<byte>)
    ensures NoEmptyPiece(Letters(chunk))
  {
    LettersFacts(chunk);
  }

  ghost predicate NothingLost(vocab: map<Token, int>, word: seq<Token>) {
    forall i :: 0 <= i < |word| ==> !Loses(vocab, word[i])
  }

  /** got falls short of want by what is missing, and is want exactly when nothing is. */
  ghost predicate ShortUnless(got: seq<byte>, want: seq<byte>, whole: bool) {
    |got| <= |want| && (got == want <==> whole) && (|got| == |want| ==> whole)
  }

  lemma ShortConcat(a: seq<byte>, x: seq<byte>, p: bool, b: seq<byte>, y: seq<byte>, q: bool)
    requires ShortUnless(a, x, p) && ShortUnless(b, y, q)
    ensures ShortUnless(a + b, x + y, p && q)
  {
  }

  lemma {:induction false} WordDecodesIff(t: Tables, word: seq<Token>, skip: bool)
    requires GoodTokens(t) && SpelledWord(word) && NoEmptyPiece(word)
    ensures ShortUnless(DecodedBytes(t, WordIds(t.vocab, word), skip), TokenBytes(Join(word)),
                        NothingLost(t.vocab, word))
  {
    if word != [] {
      var c :| word[0] == Spelled(c);
      assert c != [];
      assert SpelledWord(word[1..]) && NoEmptyPiece(word[1..]);
      assert NothingLost(t.vocab, word) <==> !Loses(t.vocab, word[0]) && NothingLost(t.vocab, word[1..]);
      hide GoodTokens, SpelledWord, NoEmptyPiece, NothingLost, TokenBytes, Spelled, DecodedBytes, PieceIds, Loses;
      WordDecodesIff(t, word[1..], skip);
      PieceDecodes(t, c, skip);
      DecodedConcat(t, PieceIds(t.vocab, word[0]), WordIds(t.vocab, word[1..]), skip);
      SpelledReadsOn(c, Join(word[1..]));
      ShortConcat(DecodedBytes(t, PieceIds(t.vocab, word[0]), skip), c, !Loses(t.vocab, word[0]),
                  DecodedBytes(t, WordIds(t.vocab, word[1..]), skip), TokenBytes(Join(word[1..])),
                  NothingLost(t.vocab, word[1..]));
    }
  }

  /** Merging the chunk leads to no piece that loses a byte. */
  ghost predicate ChunkKept(t: Tables, chunk: seq<byte>) {
    NothingLost(t.vocab, Merged(t.merges, Letters(chunk)))
  }

  lemma ChunkShort(t: Tables, chunk: seq<byte>, skip: bool)
    requires GoodTokens(t)
    ensures ShortUnless(DecodedBytes(t, ChunkIds(t, chunk), skip), chunk, ChunkKept(t, chunk))
  {
    hide GoodTokens, Merged, Letters, SpelledWord, NoEmptyPiece, NothingLost, TokenBytes, Spelled, DecodedBytes,
         WordIds, ShortUnless, Join;
    LettersFacts(chunk);
    LettersFull(chunk);
    MergedSpelled(t.merges, Letters(chunk));
    MergedFull(t.merges, Letters(chunk));
    MergedJoin(t.merges, Letters(chunk));
    WordDecodesIff(t, Merged(t.merges, Letters(chunk)), skip);
    SpelledReads(chunk);
  }

  /** Whatever the merges lead to, the ids of a chunk decode to the chunk if and
      only if every piece they end with is in the vocabulary or ends with a symbol
      of two bytes. */
  lemma ChunkDecodesIff(t: Tables, chunk: seq<byte>, skip: bool)
    requires GoodTokens(t)
    ensures DecodedBytes(t, ChunkIds(t, chunk), skip) == chunk <==>
      forall piece :: piece in Merged(t.merges, Letters(chunk)) ==> !Loses(t.vocab, piece)
  {
    var word := Merged(t.merges, Letters(chunk));
    assert NothingLost(t.vocab, word) <==> forall piece :: piece in word ==> !Loses(t.vocab, piece);
    hide GoodTokens, Merged, Letters, DecodedBytes, ChunkIds, Loses, NothingLost;
    ChunkShort(t, chunk, skip);
    assert DecodedBytes(t, ChunkIds(t, chunk), skip) == chunk <==> ChunkKept(t, chunk);
  }

  // ---------------------------------------------------------------- whole texts

  ghost predicate ChunksKept(t: Tables, chunks: seq<seq<byte>>) {
    forall i :: 0 <= i < |chunks| ==> ChunkKept(t, chunks[i])
  }

  lemma {:induction false} ChunksShort(t: Tables, chunks: seq<seq<byte>>, skip: bool)
    requires GoodTokens(t)
    ensures ShortUnless(DecodedBytes(t, ChunksIds(t, chunks), skip), Join(chunks), ChunksKept(t, chunks))
  {
    hide GoodTokens, ChunkIds, DecodedBytes, ChunkKept;
    if chunks == [] {
      DecodedNothing(t, skip);
    } else {
      ChunksShort(t, chunks[1..], skip);
      ChunkShort(t, chunks[0], skip);
      DecodedConcat(t, ChunkIds(t, chunks[0]), ChunksIds(t, chunks[1..]), skip);
      assert ChunksKept(t, chunks) <==> ChunkKept(t, chunks[0]) && ChunksKept(t, chunks[1..]);
      hide ShortUnless, ChunksKept;
      ShortConcat(DecodedBytes(t, ChunkIds(t, chunks[0]), skip), chunks[0], ChunkKept(t, chunks[0]),
                  DecodedBytes(t, ChunksIds(t, chunks[1..]), skip), Join(chunks[1..]), ChunksKept(t, chunks[1..]));
    }
  }

  /** No chunk of a plain span loses a byte. */
  ghost predicate SpanKept(t: Tables, text: seq<byte>, sp: Span)
    requires Within(sp, t.added, text)
  {
    sp.Plain? ==> ChunksKept(t, Split(t.classes, text[sp.begin..sp.end]))
  }

  ghost predicate SpansKept(t: Tables, text: seq<byte>, spans: seq<Span>)
    requires forall i :: 0 <= i < |spans| ==> Within(spans[i], t.added, text)
  {
    forall i :: 0 <= i < |spans| ==> SpanKept(t, text, spans[i])
  }

  lemma SpanShort(t: Tables, text: seq<byte>, sp: Span)
    requires GoodTokens(t) && SpecialsInvert(t.added)
    requires Within(sp, t.added, text) && SpanExact(t.added, text, sp)
    ensures ShortUnless(DecodedBytes(t, SpanIds(t, text, sp), false), SpanText(t.added, text, sp, false),
                        SpanKept(t, text, sp))
  {
    hide GoodTokens, DecodedBytes, ChunksIds, Split, ChunksKept;
    match sp
    case Special(k, b, e) =>
      SpecialIdDecodes(t, k, false);
    case Plain(b, e) =>
      ChunksShort(t, Split(t.classes, text[b..e]), false);
      SplitTiles(t.classes, text[b..e]);
  }

  lemma {:induction false} SpansShort(t: Tables, text: seq<byte>, spans: seq<Span>)
    requires GoodTokens(t) && SpecialsInvert(t.added) && AllExact(t.added, text, spans)
    ensures ShortUnless(DecodedBytes(t, SpansIds(t, text, spans), false), SpansText(t.added, text, spans, false),
                        SpansKept(t, text, spans))
  {
    hide GoodTokens, SpecialsInvert, SpanExact, Within, DecodedBytes, SpanIds, SpanKept;
    if spans == [] {
      DecodedNothing(t, false);
    } else {
      SpanShort(t, text, spans[0]);
      SpansShort(t, text, spans[1..]);
      DecodedConcat(t, SpanIds(t, text, spans[0]), SpansIds(t, text, spans[1..]), false);
      assert SpansKept(t, text, spans) <==> SpanKept(t, text, spans[0]) && SpansKept(t, text, spans[1..]);
      hide ShortUnless, SpansKept, SpanText;
      ShortConcat(DecodedBytes(t, SpanIds(t, text, spans[0]), false), SpanText(t.added, text, spans[0], false),
                  SpanKept(t, text, spans[0]),
                  DecodedBytes(t, SpansIds(t, text, spans[1..]), false), SpansText(t.added, text, spans[1..], false),
                  SpansKept(t, text, spans[1..]));
    }
  }

  /** The round trip of one text, exactly, whatever the merges lead to: decoding
      undoes encoding if and only if no chunk of the text outside the added tokens
      ends in a piece that loses a byte. */
  lemma TextDecodesIff(t: Tables, text: seq<byte>)
    requires GoodTokens(t) && LongestFirst(t.added) && SpecialsInvert(t.added)
    ensures NonEmptyContents(t.added)
    ensures forall i :: 0 <= i < |Spans(t.added, text, 0)| ==> Within(Spans(t.added, text, 0)[i], t.added, text)
    ensures DecodedBytes(t, EncodeIds(t, text, false), false) == text <==> SpansKept(t, text, Spans(t.added, text, 0))
  {
    assert AddedApart(t);
    hide GoodTokens, SpecialsInvert, SpanExact, DecodedBytes, SpansIds, Spans, LongestFirst, Tiles, SpansKept;
    SpansTile(t.added, text, 0);
    SpansWithin(t.added, text, 0);
    var spans := Spans(t.added, text, 0);
    SpansShort(t, text, spans);
    SpansTextWhole(t.added, text, spans, 0);
    assert text[0..] == text;
    assert EncodeIds(t, text, false) == SpansIds(t, text, spans);
  }

  // ---------------------------------------------------------------- a text that loses a byte

  lemma SymbolsDiffer(a: byte, b: byte)
    requires Symbol(a) == Symbol(b)
    ensures a == b
  {
    SymbolDecodes(a);
    SymbolDecodes(b);
  }

  /** The vocabulary of the bytes below n. */
  function ByteVocabulary(n: nat): map<Token, int>
    requires n <= 256
  {
    if n == 0 then map[] else ByteVocabulary(n - 1)[Symbol(n - 1) := n - 1]
  }

  lemma {:induction false} ByteVocabularyFacts(n: nat)
    requires n <= 256
    ensures forall b: byte :: b < n ==> Symbol(b) in ByteVocabulary(n) && ByteVocabulary(n)[Symbol(b)] == b
    ensures forall k :: k in ByteVocabulary(n) ==>
      0 <= ByteVocabulary(n)[k] < n && k == Symbol(ByteVocabulary(n)[k])
  {
    hide Symbol;
    if n > 0 {
      ByteVocabularyFacts(n - 1);
      forall b: byte | b < n - 1 ensures Symbol(b) != Symbol(n - 1) {
        if Symbol(b) == Symbol(n - 1) { SymbolsDiffer(b, n - 1); }
      }
    }
  }

  /** Every byte and the merge of two letters, whose result the vocabulary lacks. */
  function TwoLetters(x: byte, y: byte, classes: Classes): Tables {
    Tables(ByteVocabulary(256), seq(256, i requires 0 <= i < 256 => Symbol(i)), MergeTable([(Symbol(x), Symbol(y))]),
           [], -1, classes)
  }

  lemma TwoLettersGood(x: byte, y: byte, classes: Classes)
    ensures GoodTokens(TwoLetters(x, y, classes))
  {
    ByteVocabularyFacts(256);
    hide Symbol, ByteVocabulary, MergeTable;
  }

  lemma MergesTheTwo(x: byte, y: byte)
    ensures Merged(MergeTable([(Symbol(x), Symbol(y))]), Letters([x, y])) == [Spelled([x, y])]
  {
    hide Symbol;
    var pairs := [(Symbol(x), Symbol(y))];
    var merges, word := MergeTable(pairs), Letters([x, y]);
    assert [x, y][1..] == [y] && [y][1..] == [];
    assert Letters([y]) == [Symbol(y)] + Letters([y][1..]);
    assert Letters([x, y]) == [Symbol(x)] + Letters([x, y][1..]);
    assert Spelled([y]) == Symbol(y) + Spelled([y][1..]) == Symbol(y);
    assert Spelled([x, y]) == Symbol(x) + Spelled([x, y][1..]) == Symbol(x) + Symbol(y);
    assert pairs[..0] == [];
    assert merges == MergeTable(pairs[..0])[PairKey(Symbol(x), Symbol(y)) := 0];
    assert RankAt(merges, word, 0) == 0;
    assert BestPair(merges, word, 1).0 == 0;
    assert ReplacePair(word, 0) == [Symbol(x) + Symbol(y)];
    assert Merged(merges, word) == Merged(merges, ReplacePair(word, 0));
  }

  lemma NotAByte(x: byte, y: byte)
    ensures Spelled([x, y]) !in ByteVocabulary(256)
  {
    var v := ByteVocabulary(256);
    ByteVocabularyFacts(256);
    hide Symbol, Spelled, ByteVocabulary, TokenBytes;
    if Spelled([x, y]) in v {
      SpelledReads([x, y]);
      SymbolDecodes(v[Spelled([x, y])]);
      assert false;
    }
  }

  lemma OnePiece(vocab: map<Token, int>, piece: Token)
    requires piece !in vocab
    ensures WordIds(vocab, [piece]) == FallbackIds(vocab, piece)
  {
    assert [piece][1..] == [];
    assert WordIds(vocab, [piece]) == FallbackIds(vocab, piece) + WordIds(vocab, [piece][1..]);
  }

  /** One merge without its result in the vocabulary is enough: of a chunk of two
      letters the second is lost. */
  lemma TwoLettersLose(x: byte, y: byte, classes: Classes, skip: bool)
    requires |Symbol(y)| == 1
    ensures GoodTokens(TwoLetters(x, y, classes))
    ensures DecodedBytes(TwoLetters(x, y, classes), ChunkIds(TwoLetters(x, y, classes), [x, y]), skip) == [x]
  {
    var t := TwoLetters(x, y, classes);
    TwoLettersGood(x, y, classes);
    MergesTheTwo(x, y);
    NotAByte(x, y);
    hide GoodTokens, Symbol, Spelled, DecodedBytes, FallbackIds, MergeTable, Merged, Letters, ByteVocabulary, WordIds;
    OnePiece(t.vocab, Spelled([x, y]));
    FallbackLoses(t, [x, y], skip);
    assert [x, y][..1] == [x];
  }
}
