/** Decoding undoes encoding: the conditions on the tables, the theorem for
    every text, and exactly what goes wrong where a condition fails. */
module RoundTrip {
  import opened Bytes
  import Utf8
  import opened Bpe
  import opened PreTokenize
  import opened ByteLevel
  import opened TokenTables

  // ---------------------------------------------------------------- conditions on the tables

  /** Vocabulary ids are a bijection onto 0..n-1 and the id table inverts it. */
  ghost predicate IdsInvert(t: Tables) {
    forall k :: k in t.vocab ==> 0 <= t.vocab[k] < |t.vocabById| && t.vocabById[t.vocab[k]] == k
  }

  /** Every byte has its symbol in the vocabulary. */
  ghost predicate BytesPresent(t: Tables) {
    forall b: byte :: Symbol(b) in t.vocab
  }

  /** Added tokens have contents, and ids outside the vocabulary. */
  ghost predicate AddedApart(t: Tables) {
    NonEmptyContents(t.added) && forall i, k :: 0 <= i < |t.added| && k in t.vocab ==> t.added[i].id != t.vocab[k]
  }

  /** The table comes from a list of merges whose results are all in the vocabulary. */
  ghost predicate ClosedMerges(t: Tables) {
    exists pairs :: t.merges == MergeTable(pairs) && MergeClosed(pairs, t.vocab.Keys)
  }

  ghost predicate GoodVocabulary(t: Tables) {
    IdsInvert(t) && BytesPresent(t) && AddedApart(t) && ClosedMerges(t)
  }

  ghost predicate LongestFirst(added: seq<AddedToken>) {
    forall i, j :: 0 <= i < j < |added| ==> |added[i].content| >= |added[j].content|
  }

  /** No earlier token of the list has the same content. */
  ghost predicate FirstOfContent(added: seq<AddedToken>, k: nat)
    requires k < |added|
  {
    forall j :: 0 <= j < k ==> added[j].content != added[k].content
  }

  /** The id of each content leads back to it. */
  ghost predicate SpecialsInvert(added: seq<AddedToken>) {
    forall k :: 0 <= k < |added| && FirstOfContent(added, k) ==>
      added[k].id in Specials(added) && Specials(added)[added[k].id] == added[k].content
  }

  // ---------------------------------------------------------------- words

  /** Every piece spells some bytes. */
  ghost predicate SpelledWord(word: seq<Token>) {
    forall i :: 0 <= i < |word| ==> exists c :: word[i] == Spelled(c)
  }

  lemma {:induction false} LettersFacts(chunk: seq<byte>)
    ensures SpelledWord(Letters(chunk)) && Join(Letters(chunk)) == Spelled(chunk)
    ensures forall i :: 0 <= i < |chunk| ==> Letters(chunk)[i] == Symbol(chunk[i])
  {
    hide Symbol;
    if chunk != [] {
      LettersFacts(chunk[1..]);
      assert Spelled([chunk[0]]) == Symbol(chunk[0]) + Spelled([]);
      assert Letters(chunk)[0] == Spelled([chunk[0]]);
      forall i | 0 <= i < |chunk| ensures exists c :: Letters(chunk)[i] == Spelled(c) {
        if i > 0 { assert Letters(chunk)[i] == Letters(chunk[1..])[i - 1]; }
      }
      assert Letters(chunk)[1..] == Letters(chunk[1..]);
    }
  }

  lemma ReplacePairSpelled(word: seq<Token>, i: nat)
    requires SpelledWord(word) && i + 1 < |word|
    ensures SpelledWord(ReplacePair(word, i))
  {
    var w := ReplacePair(word, i);
    var a :| word[i] == Spelled(a);
    var b :| word[i + 1] == Spelled(b);
    SpelledConcat(a, b);
    assert w[i] == Spelled(a + b);
    forall j | 0 <= j < |w| && j != i ensures exists c :: w[j] == Spelled(c) {
      assert w[j] == word[if j < i then j else j + 1];
    }
  }

  lemma {:induction false} MergedSpelled(merges: map<Token, int>, word: seq<Token>)
    requires SpelledWord(word)
    ensures SpelledWord(Merged(merges, word))
    decreases |word|
  {
    hide SpelledWord;
    if |word| >= 2 {
      var i := BestPair(merges, word, |word| - 1).0;
      if i >= 0 {
        ReplacePairSpelled(word, i);
        MergedSpelled(merges, ReplacePair(word, i));
      }
    }
  }

  lemma {:induction false} SpelledReadsOn(c: seq<byte>, rest: Token)
    ensures TokenBytes(Spelled(c) + rest) == c + TokenBytes(rest)
  {
    hide TokenBytes, Symbol;
    if c == [] {
      assert Spelled(c) + rest == rest;
    } else {
      SpelledReadsOn(c[1..], rest);
      SymbolReads(c[0], Spelled(c[1..]) + rest);
      assert Spelled(c) + rest == Symbol(c[0]) + (Spelled(c[1..]) + rest);
    }
  }

  // ---------------------------------------------------------------- ids of words

  lemma {:induction false} DecodedConcat(t: Tables, u: seq<int>, v: seq<int>, skip: bool)
    ensures DecodedBytes(t, u + v, skip) == DecodedBytes(t, u, skip) + DecodedBytes(t, v, skip)
  {
    hide IdBytes;
    if u == [] {
      assert u + v == v;
    } else {
      DecodedConcat(t, u[1..], v, skip);
      assert (u + v)[1..] == u[1..] + v;
    }
  }

  ghost predicate HasId(added: seq<AddedToken>, id: int) {
    exists i :: 0 <= i < |added| && added[i].id == id
  }

  lemma {:induction false} SpecialsKeys(added: seq<AddedToken>, id: int)
    ensures id in Specials(added) <==> HasId(added, id)
  {
    if added != [] {
      var n := |added| - 1;
      SpecialsKeys(added[..n], id);
      assert added[n].id == id ==> HasId(added, id);
      if HasId(added[..n], id) {
        var i :| 0 <= i < n && added[..n][i].id == id;
        assert added[i].id == id;
      }
      if HasId(added, id) && added[n].id != id {
        var i :| 0 <= i < |added| && added[i].id == id;
        assert added[..n][i].id == id;
      }
    }
  }

  /** A vocabulary id decodes to what its token spells. */
  lemma VocabularyIdDecodes(t: Tables, token: Token, skip: bool)
    requires IdsInvert(t) && AddedApart(t) && token in t.vocab
    ensures DecodedBytes(t, [t.vocab[token]], skip) == TokenBytes(token)
  {
    SpecialsKeys(t.added, t.vocab[token]);
    var ids := [t.vocab[token]];
    assert ids[1..] == [];
    assert IdBytes(t, t.vocab[token], skip) == TokenBytes(token);
  }

  lemma {:induction false} WordDecodes(t: Tables, word: seq<Token>, skip: bool)
    requires IdsInvert(t) && AddedApart(t) && Known(word, t.vocab.Keys) && SpelledWord(word)
    ensures DecodedBytes(t, WordIds(t.vocab, word), skip) == TokenBytes(Join(word))
  {
    if word != [] {
      var c :| word[0] == Spelled(c);
      assert word[0] in t.vocab;
      assert Known(word[1..], t.vocab.Keys) && SpelledWord(word[1..]);
      hide IdsInvert, AddedApart, Known, SpelledWord, TokenBytes, Spelled, DecodedBytes;
      WordDecodes(t, word[1..], skip);
      VocabularyIdDecodes(t, word[0], skip);
      DecodedConcat(t, [t.vocab[word[0]]], WordIds(t.vocab, word[1..]), skip);
      SpelledReadsOn(c, Join(word[1..]));
      SpelledReads(c);
    }
  }

  lemma ChunkKnown(t: Tables, chunk: seq<byte>)
    requires BytesPresent(t) && ClosedMerges(t)
    ensures Known(Merged(t.merges, Letters(chunk)), t.vocab.Keys)
  {
    var pairs :| t.merges == MergeTable(pairs) && MergeClosed(pairs, t.vocab.Keys);
    LettersFacts(chunk);
    assert Known(Letters(chunk), t.vocab.Keys) by {
      hide Symbol, Spelled;
      forall i | 0 <= i < |chunk| ensures Letters(chunk)[i] in t.vocab.Keys && SPACE !in Letters(chunk)[i] {
        var c :| Letters(chunk)[i] == Spelled(c);
        SpelledHasNoSpace(c);
      }
    }
    MergedKnown(pairs, t.vocab.Keys, Letters(chunk));
  }

  /** The ids of a chunk decode to the chunk. */
  lemma ChunkDecodes(t: Tables, chunk: seq<byte>, skip: bool)
    requires GoodVocabulary(t)
    ensures DecodedBytes(t, ChunkIds(t, chunk), skip) == chunk
  {
    hide Merged, Letters, Known, SpelledWord, BytesPresent, ClosedMerges, IdsInvert, AddedApart, Spelled, TokenBytes,
         Join;
    LettersFacts(chunk);
    ChunkKnown(t, chunk);
    MergedSpelled(t.merges, Letters(chunk));
    MergedJoin(t.merges, Letters(chunk));
    WordDecodes(t, Merged(t.merges, Letters(chunk)), skip);
    SpelledReads(chunk);
  }

  lemma {:induction false} ChunksDecode(t: Tables, chunks: seq<seq<byte>>, skip: bool)
    requires GoodVocabulary(t)
    ensures DecodedBytes(t, ChunksIds(t, chunks), skip) == Join(chunks)
  {
    hide GoodVocabulary, ChunkIds, DecodedBytes;
    if chunks != [] {
      ChunksDecode(t, chunks[1..], skip);
      ChunkDecodes(t, chunks[0], skip);
      DecodedConcat(t, ChunkIds(t, chunks[0]), ChunksIds(t, chunks[1..]), skip);
    } else {
      assert DecodedBytes(t, [], skip) == [] by { DecodedNothing(t, skip); }
    }
  }

  lemma DecodedNothing(t: Tables, skip: bool)
    ensures DecodedBytes(t, [], skip) == []
  {
  }

  // ---------------------------------------------------------------- spans

  /** What a span keeps of the text under skipSpecial. */
  function SpanText(added: seq<AddedToken>, text: seq<byte>, sp: Span, skip: bool): seq<byte>
    requires Within(sp, added, text)
  {
    if sp.Special? && skip then [] else text[sp.begin..sp.end]
  }

  function SpansText(added: seq<AddedToken>, text: seq<byte>, spans: seq<Span>, skip: bool): seq<byte>
    requires forall i :: 0 <= i < |spans| ==> Within(spans[i], added, text)
  {
    if spans == [] then [] else SpanText(added, text, spans[0], skip) + SpansText(added, text, spans[1..], skip)
  }

  /** A special span holds the content of the token it names, which is the
      longest that matches there; inside a plain span none matches anywhere. */
  ghost predicate SpanExact(added: seq<AddedToken>, text: seq<byte>, sp: Span)
    requires Within(sp, added, text)
  {
    match sp
    case Special(k, b, e) =>
      && text[b..e] == added[k].content && FirstOfContent(added, k)
      && (forall j :: 0 <= j < |added| && MatchesAt(added[j], text, b) ==> |added[j].content| <= e - b)
    case Plain(b, e) =>
      b < e && forall x, j :: b <= x < e && 0 <= j < |added| ==> !MatchesAt(added[j], text, x)
  }

  lemma SpecialSpanExact(added: seq<AddedToken>, text: seq<byte>, pos: nat, k: nat)
    requires LongestFirst(added) && FirstAdded(added, text, pos, 0) == Some(k)
    ensures Within(Special(k, pos, pos + |added[k].content|), added, text)
    ensures SpanExact(added, text, Special(k, pos, pos + |added[k].content|))
  {
    forall j | 0 <= j < k ensures added[j].content != added[k].content {
      assert !MatchesAt(added[j], text, pos);
    }
  }

  lemma PlainSpanExact(added: seq<AddedToken>, text: seq<byte>, pos: nat)
    requires pos < |text| && FirstAdded(added, text, pos, 0).None?
    ensures SpanExact(added, text, Plain(pos, NextAdded(added, text, pos)))
  {
    var e := NextAdded(added, text, pos);
    forall x, j | pos <= x < e && 0 <= j < |added| ensures !MatchesAt(added[j], text, x) {
      assert FirstAdded(added, text, x, 0).None?;
    }
  }

  /** Consecutive spans from pos to end. */
  ghost predicate Tiles(spans: seq<Span>, pos: nat, end: nat) {
    if spans == [] then pos == end
    else spans[0].begin == pos && Tiles(spans[1..], spans[0].end, end)
  }

  ghost predicate AllExact(added: seq<AddedToken>, text: seq<byte>, spans: seq<Span>) {
    forall i :: 0 <= i < |spans| ==> Within(spans[i], added, text) && SpanExact(added, text, spans[i])
  }

  lemma ExactCons(added: seq<AddedToken>, text: seq<byte>, sp: Span, rest: seq<Span>)
    requires Within(sp, added, text) && SpanExact(added, text, sp) && AllExact(added, text, rest)
    ensures AllExact(added, text, [sp] + rest)
  {
    hide SpanExact, Within;
  }

  /** The spans tile the text from pos on and each is what it claims. */
  lemma {:induction false} SpansTile(added: seq<AddedToken>, text: seq<byte>, pos: nat)
    requires pos <= |text| && NonEmptyContents(added) && LongestFirst(added)
    ensures AllExact(added, text, Spans(added, text, pos))
    ensures Tiles(Spans(added, text, pos), pos, |text|)
    decreases |text| - pos
  {
    hide SpanExact, AllExact, LongestFirst;
    if pos < |text| {
      match FirstAdded(added, text, pos, 0)
      case Some(k) =>
        var end := pos + |added[k].content|;
        SpecialSpanExact(added, text, pos, k);
        SpansTile(added, text, end);
        ExactCons(added, text, Special(k, pos, end), Spans(added, text, end));
      case None =>
        var x := NextAdded(added, text, pos);
        PlainSpanExact(added, text, pos);
        SpansTile(added, text, x);
        ExactCons(added, text, Plain(pos, x), Spans(added, text, x));
    } else {
      assert AllExact(added, text, []) by { ExactNothing(added, text); }
    }
  }

  lemma ExactNothing(added: seq<AddedToken>, text: seq<byte>)
    ensures AllExact(added, text, [])
  {
  }

  lemma SpecialIdDecodes(t: Tables, k: nat, skip: bool)
    requires k < |t.added|
      && (skip || (t.added[k].id in Specials(t.added) && Specials(t.added)[t.added[k].id] == t.added[k].content))
    ensures DecodedBytes(t, [t.added[k].id], skip) == if skip then [] else t.added[k].content
  {
    SpecialsKeys(t.added, t.added[k].id);
    var ids := [t.added[k].id];
    assert ids[1..] == [];
  }

  lemma SpanDecodes(t: Tables, text: seq<byte>, sp: Span, skip: bool)
    requires GoodVocabulary(t) && (skip || SpecialsInvert(t.added))
    requires Within(sp, t.added, text) && SpanExact(t.added, text, sp)
    ensures DecodedBytes(t, SpanIds(t, text, sp), skip) == SpanText(t.added, text, sp, skip)
  {
    hide GoodVocabulary, DecodedBytes, ChunksIds, Split;
    match sp
    case Special(k, b, e) =>
      SpecialIdDecodes(t, k, skip);
    case Plain(b, e) =>
      ChunksDecode(t, Split(t.classes, text[b..e]), skip);
      SplitTiles(t.classes, text[b..e]);
  }

  lemma {:induction false} SpansDecode(t: Tables, text: seq<byte>, spans: seq<Span>, skip: bool)
    requires GoodVocabulary(t) && (skip || SpecialsInvert(t.added))
    requires AllExact(t.added, text, spans)
    ensures DecodedBytes(t, SpansIds(t, text, spans), skip) == SpansText(t.added, text, spans, skip)
  {
    hide GoodVocabulary, SpecialsInvert, SpanExact, Within, DecodedBytes, SpanIds, SpanText;
    if spans != [] {
      SpanDecodes(t, text, spans[0], skip);
      SpansDecode(t, text, spans[1..], skip);
      DecodedConcat(t, SpanIds(t, text, spans[0]), SpansIds(t, text, spans[1..]), skip);
    } else {
      DecodedNothing(t, skip);
    }
  }

  lemma {:induction false} SpansTextWhole(added: seq<AddedToken>, text: seq<byte>, spans: seq<Span>, pos: nat)
    requires pos <= |text| && forall i :: 0 <= i < |spans| ==> Within(spans[i], added, text)
    requires Tiles(spans, pos, |text|)
    ensures SpansText(added, text, spans, false) == text[pos..]
  {
    if spans != [] {
      assert Within(spans[0], added, text);
      SpansTextWhole(added, text, spans[1..], spans[0].end);
      assert text[pos..] == text[pos..spans[0].end] + text[spans[0].end..];
    }
  }

  // ---------------------------------------------------------------- the theorem

  /** The bytes collected by decode are the encoded text. */
  lemma BytesRoundTrip(t: Tables, text: seq<byte>)
    requires GoodVocabulary(t) && LongestFirst(t.added) && SpecialsInvert(t.added)
    ensures NonEmptyContents(t.added)
    ensures DecodedBytes(t, EncodeIds(t, text, false), false) == text
  {
    assert AddedApart(t);
    hide GoodVocabulary, SpecialsInvert, SpanExact, DecodedBytes, SpansIds, Spans, LongestFirst, Tiles;
    SpansTile(t.added, text, 0);
    SpansWithin(t.added, text, 0);
    var spans := Spans(t.added, text, 0);
    SpansDecode(t, text, spans, false);
    SpansTextWhole(t.added, text, spans, 0);
    assert text[0..] == text;
  }

  /** decode(encode(text, false), false) is the text with every byte that starts
      no UTF-8 character replaced by U+FFFD; it is the text itself exactly when
      the text is well-formed UTF-8. */
  lemma DecodeEncode(t: Tables, text: seq<byte>)
    requires GoodVocabulary(t) && LongestFirst(t.added) && SpecialsInvert(t.added)
    ensures NonEmptyContents(t.added)
    ensures Utf8.Sanitised(DecodedBytes(t, EncodeIds(t, text, false), false)) == Utf8.Sanitised(text)
    ensures Utf8.Sanitised(DecodedBytes(t, EncodeIds(t, text, false), false)) == text <==> Utf8.WellFormed(text)
  {
    BytesRoundTrip(t, text);
    Utf8.SanitisedIffWellFormed(text);
  }

  /** With skipSpecial, decoding keeps exactly the text outside the added tokens. */
  lemma DecodeSkipsSpecials(t: Tables, text: seq<byte>)
    requires GoodVocabulary(t) && LongestFirst(t.added)
    ensures NonEmptyContents(t.added)
    ensures forall i :: 0 <= i < |Spans(t.added, text, 0)| ==> Within(Spans(t.added, text, 0)[i], t.added, text)
    ensures DecodedBytes(t, EncodeIds(t, text, false), true) == SpansText(t.added, text, Spans(t.added, text, 0), true)
  {
    assert AddedApart(t);
    hide GoodVocabulary, SpanExact, DecodedBytes, SpansIds, Spans, LongestFirst;
    SpansTile(t.added, text, 0);
    SpansWithin(t.added, text, 0);
    SpansDecode(t, text, Spans(t.added, text, 0), true);
  }

  lemma DecodeOne(t: Tables, id: int, skip: bool)
    ensures DecodedBytes(t, [id], skip) == IdBytes(t, id, skip)
  {
    assert [id][1..] == [];
  }

  /** With the end id asked for, decoding gives the text, followed by what the end
      id stands for when it was added; with skipSpecial an end id that is an added
      token leaves no trace. */
  lemma DecodeEncodeWithEnd(t: Tables, text: seq<byte>)
    requires GoodVocabulary(t) && LongestFirst(t.added) && SpecialsInvert(t.added)
    ensures NonEmptyContents(t.added)
    ensures var (plain, ids) := (EncodeIds(t, text, false), EncodeIds(t, text, true));
      && DecodedBytes(t, ids, false) ==
           (if t.eosId < 0 || EndsIn(plain, t.eosId) then text else text + IdBytes(t, t.eosId, false))
      && (t.eosId in Specials(t.added) ==> DecodedBytes(t, ids, true) == DecodedBytes(t, plain, true))
  {
    BytesRoundTrip(t, text);
    EndIdOnce(t, text);
    hide GoodVocabulary, SpecialsInvert, LongestFirst, DecodedBytes, EncodeIds;
    var plain, ids := EncodeIds(t, text, false), EncodeIds(t, text, true);
    if ids != plain {
      DecodedConcat(t, plain, [t.eosId], false);
      DecodedConcat(t, plain, [t.eosId], true);
      DecodeOne(t, t.eosId, false);
      DecodeOne(t, t.eosId, true);
    }
  }

  // ---------------------------------------------------------------- where it fails

  /** The content of an added token, as a text, is encoded as one id: that of
      the first token with this content. */
  lemma ContentEncodes(t: Tables, k: nat)
    requires NonEmptyContents(t.added) && LongestFirst(t.added) && k < |t.added| && FirstOfContent(t.added, k)
    ensures EncodeIds(t, t.added[k].content, false) == [t.added[k].id]
  {
    var text := t.added[k].content;
    assert MatchesAt(t.added[k], text, 0);
    var r := FirstAdded(t.added, text, 0, 0).value;
    assert MatchesAt(t.added[r], text, 0) && r <= k;
    assert |t.added[r].content| == |text|;
    assert t.added[r].content == text[0..|text|] == text;
    assert r == k;
    SpansWithin(t.added, text, 0);
    assert Spans(t.added, text, |text|) == [];
    var spans := Spans(t.added, text, 0);
    assert spans == [Special(k, 0, |text|)] && spans[1..] == [];
    assert SpansIds(t, text, spans) == SpanIds(t, text, spans[0]) + SpansIds(t, text, spans[1..]);
  }

  /** Among tables that are otherwise good, decoding undoes encoding on every
      text if and only if the id of every added content leads back to it. */
  lemma RoundTripIffSpecialsInvert(t: Tables)
    requires GoodVocabulary(t) && LongestFirst(t.added)
    ensures NonEmptyContents(t.added)
    ensures (forall text :: DecodedBytes(t, EncodeIds(t, text, false), false) == text) <==> SpecialsInvert(t.added)
  {
    assert NonEmptyContents(t.added);
    if SpecialsInvert(t.added) {
      forall text ensures DecodedBytes(t, EncodeIds(t, text, false), false) == text {
        BytesRoundTrip(t, text);
      }
    } else {
      var k :| 0 <= k < |t.added| && FirstOfContent(t.added, k)
            && !(t.added[k].id in Specials(t.added) && Specials(t.added)[t.added[k].id] == t.added[k].content);
      ContentEncodes(t, k);
      SpecialsKeys(t.added, t.added[k].id);
      var ids := [t.added[k].id];
      assert ids[1..] == [];
      assert DecodedBytes(t, ids, false) == Specials(t.added)[t.added[k].id];
    }
  }

  /** No later token of the list has the same id. */
  ghost predicate LastOfId(added: seq<AddedToken>, l: nat)
    requires l < |added|
  {
    forall j :: l < j < |added| ==> added[j].id != added[l].id
  }

  /** The first token of its content and the last of its id disagree about the content. */
  ghost predicate Misled(added: seq<AddedToken>, k: nat, l: nat) {
    && k < |added| && l < |added| && FirstOfContent(added, k) && LastOfId(added, l)
    && added[k].id == added[l].id && added[k].content != added[l].content
  }

  /** An id stands for the content of the last token that has it. */
  lemma {:induction false} SpecialsLast(added: seq<AddedToken>, id: int) returns (l: nat)
    requires id in Specials(added)
    ensures l < |added| && added[l].id == id && LastOfId(added, l) && Specials(added)[id] == added[l].content
  {
    var n := |added| - 1;
    if added[n].id == id {
      l := n;
    } else {
      l := SpecialsLast(added[..n], id);
    }
  }

  lemma LastIsLast(added: seq<AddedToken>, l: nat)
    requires l < |added| && LastOfId(added, l)
    ensures added[l].id in Specials(added) && Specials(added)[added[l].id] == added[l].content
  {
    SpecialsKeys(added, added[l].id);
    var m := SpecialsLast(added, added[l].id);
    assert m == l;
  }

  /** What breaks the round trip, exactly: a content that is not the one its own
      id ends up standing for. */
  lemma SpecialsInvertUnlessMisled(added: seq<AddedToken>)
    ensures !SpecialsInvert(added) <==> exists k, l :: Misled(added, k, l)
  {
    if !SpecialsInvert(added) {
      var k :| 0 <= k < |added| && FirstOfContent(added, k)
            && !(added[k].id in Specials(added) && Specials(added)[added[k].id] == added[k].content);
      SpecialsKeys(added, added[k].id);
      var l := SpecialsLast(added, added[k].id);
      assert Misled(added, k, l);
    } else if k, l :| Misled(added, k, l) {
      LastIsLast(added, l);
    }
  }

  /** Two contents under one id break it ... */
  lemma SharedIdBreaks(a: Token, b: Token, id: int)
    requires a != b
    ensures !SpecialsInvert([AddedToken(a, id), AddedToken(b, id)])
  {
    var added := [AddedToken(a, id), AddedToken(b, id)];
    assert Misled(added, 0, 1);
    SpecialsInvertUnlessMisled(added);
  }

  /** ... but not when an earlier token shadows one of the contents. */
  lemma ShadowedIdIsHarmless(a: Token, b: Token, id: int, other: int)
    requires a != b && other != id
    ensures SpecialsInvert([AddedToken(a, other), AddedToken(a, id), AddedToken(b, id)])
  {
    var added := [AddedToken(a, other), AddedToken(a, id), AddedToken(b, id)];
    assert added[0].content == added[1].content;
    assert !FirstOfContent(added, 1) && LastOfId(added, 0) && LastOfId(added, 2);
    hide FirstOfContent;
    forall k | 0 <= k < |added| && FirstOfContent(added, k)
      ensures added[k].id in Specials(added) && Specials(added)[added[k].id] == added[k].content
    {
      LastIsLast(added, k);
    }
  }
}
