/** The tokenizer class: its tables as loading builds them, and the encode and
    decode loops, each proved equal to the functions of TokenTables. */
module NativeTokenizer {
  import opened Bytes
  import Utf8
  import opened Bpe
  import opened PreTokenize
  import opened ByteLevel
  import opened TokenTables
  import opened RoundTrip

  // ---------------------------------------------------------------- the order of added tokens

  /** The order of the added tokens: longer contents first, then smaller ids. */
  predicate Precedes(a: AddedToken, b: AddedToken) {
    |a.content| > |b.content| || (|a.content| == |b.content| && a.id < b.id)
  }

  /** A stable insertion into a sorted list: behind everything that x does not precede. */
  function Inserted(sorted: seq<AddedToken>, x: AddedToken): seq<AddedToken> {
    if sorted == [] then [x]
    else if Precedes(x, sorted[0]) then [x] + sorted
    else [sorted[0]] + Inserted(sorted[1..], x)
  }

  function StableSorted(list: seq<AddedToken>): seq<AddedToken> {
    if list == [] then [] else Inserted(StableSorted(list[..|list| - 1]), list[|list| - 1])
  }

  ghost predicate SortedAdded(s: seq<AddedToken>) {
    forall i, j :: 0 <= i < j < |s| ==> !Precedes(s[j], s[i])
  }

  lemma ConsSorted(a: AddedToken, r: seq<AddedToken>, rest: seq<AddedToken>, x: AddedToken)
    requires SortedAdded([a] + rest) && SortedAdded(r) && !Precedes(x, a)
    requires multiset(r) == multiset(rest) + multiset{x}
    ensures SortedAdded([a] + r)
  {
    forall j | 0 <= j < |r| ensures !Precedes(r[j], a) {
      assert r[j] in multiset(r);
      if r[j] != x {
        assert r[j] in multiset(rest);
        var i :| 0 <= i < |rest| && rest[i] == r[j];
        assert ([a] + rest)[i + 1] == r[j] && ([a] + rest)[0] == a;
      }
    }
  }

  lemma {:induction false} InsertedSorted(s: seq<AddedToken>, x: AddedToken)
    requires SortedAdded(s)
    ensures SortedAdded(Inserted(s, x))
    ensures multiset(Inserted(s, x)) == multiset(s) + multiset{x}
  {
    if s != [] {
      assert s == [s[0]] + s[1..];
      if !Precedes(x, s[0]) {
        InsertedSorted(s[1..], x);
        ConsSorted(s[0], Inserted(s[1..], x), s[1..], x);
      }
    }
  }

  /** Sorting keeps the tokens and puts longer contents first. */
  lemma {:induction false} StableSortedFacts(list: seq<AddedToken>)
    ensures SortedAdded(StableSorted(list)) && multiset(StableSorted(list)) == multiset(list)
    ensures LongestFirst(StableSorted(list))
  {
    if list != [] {
      var n := |list| - 1;
      StableSortedFacts(list[..n]);
      InsertedSorted(StableSorted(list[..n]), list[n]);
      assert list == list[..n] + [list[n]];
    }
    assert forall i, j :: 0 <= i < j < |StableSorted(list)| ==> !Precedes(StableSorted(list)[j], StableSorted(list)[i]);
  }

  // ---------------------------------------------------------------- one round of each loop

  lemma WordIdsFrom(vocab: map<Token, int>, word: seq<Token>, i: nat)
    requires i <= |word|
    ensures WordIds(vocab, word[i..]) == if i == |word| then []
                                         else PieceIds(vocab, word[i]) + WordIds(vocab, word[i + 1..])
  {
    if i < |word| { assert word[i..][1..] == word[i + 1..]; }
  }

  lemma FallbackFrom(vocab: map<Token, int>, piece: Token, c: nat)
    requires c <= |piece|
    ensures FallbackIds(vocab, piece[c..]) ==
      if c + 1 >= |piece| then []
      else
        var end := if c + LeadLen(piece[c]) <= |piece| then c + LeadLen(piece[c]) else |piece|;
        (if piece[c..end] in vocab then [vocab[piece[c..end]]] else []) + FallbackIds(vocab, piece[end..])
  {
    hide FallbackIds, LeadLen;
    FallbackStep(vocab, piece[c..]);
    if c + 1 < |piece| {
      var end := if c + LeadLen(piece[c]) <= |piece| then c + LeadLen(piece[c]) else |piece|;
      assert piece[c..][..end - c] == piece[c..end] && piece[c..][end - c..] == piece[end..];
    }
  }

  lemma FallbackStep(vocab: map<Token, int>, rest: Token)
    ensures |rest| <= 1 ==> FallbackIds(vocab, rest) == []
    ensures |rest| > 1 ==>
      var n := if LeadLen(rest[0]) <= |rest| then LeadLen(rest[0]) else |rest|;
      FallbackIds(vocab, rest) == (if rest[..n] in vocab then [vocab[rest[..n]]] else [])
        + FallbackIds(vocab, rest[n..])
  {
  }

  lemma SpansFrom(added: seq<AddedToken>, text: seq<byte>, pos: nat)
    requires pos <= |text| && NonEmptyContents(added)
    ensures Spans(added, text, pos) ==
      if pos == |text| then []
      else
        match FirstAdded(added, text, pos, 0)
        case Some(k) => [Special(k, pos, pos + |added[k].content|)] + Spans(added, text, pos + |added[k].content|)
        case None => [Plain(pos, NextAdded(added, text, pos))] + Spans(added, text, NextAdded(added, text, pos))
    ensures pos < |text| && FirstAdded(added, text, pos, 0).None? ==> NextAdded(added, text, pos) > pos
    ensures pos < |text| && FirstAdded(added, text, pos, 0).Some? ==>
      |added[FirstAdded(added, text, pos, 0).value].content| > 0
  {
  }

  lemma NextFrom(added: seq<AddedToken>, text: seq<byte>, x: nat)
    requires x <= |text|
    ensures NextAdded(added, text, x) ==
      if x == |text| || FirstAdded(added, text, x, 0).Some? then x else NextAdded(added, text, x + 1)
  {
  }

  lemma ChunksIdsFrom(t: Tables, chunks: seq<seq<byte>>, i: nat)
    requires i <= |chunks|
    ensures ChunksIds(t, chunks[i..]) == if i == |chunks| then []
                                         else ChunkIds(t, chunks[i]) + ChunksIds(t, chunks[i + 1..])
  {
    if i < |chunks| { assert chunks[i..][1..] == chunks[i + 1..]; }
  }

  lemma SpansIdsFrom(t: Tables, text: seq<byte>, spans: seq<Span>, i: nat)
    requires i <= |spans| && forall j :: 0 <= j < |spans| ==> Within(spans[j], t.added, text)
    ensures SpansIds(t, text, spans[i..]) == if i == |spans| then []
                                             else SpanIds(t, text, spans[i]) + SpansIds(t, text, spans[i + 1..])
  {
    if i < |spans| { assert spans[i..][1..] == spans[i + 1..]; }
  }

  lemma DecodedFrom(t: Tables, ids: seq<int>, i: nat, skip: bool)
    requires i <= |ids|
    ensures DecodedBytes(t, ids[i..], skip) == if i == |ids| then []
                                               else IdBytes(t, ids[i], skip) + DecodedBytes(t, ids[i + 1..], skip)
  {
    if i < |ids| { assert ids[i..][1..] == ids[i + 1..]; }
  }

  // ---------------------------------------------------------------- the class

  /** byId lists the vocabulary by id; ids nobody has are blank. */
  ghost predicate Inverts(byId: seq<Token>, vocabulary: map<Token, int>) {
    && |byId| == |vocabulary|
    && forall id :: 0 <= id < |byId| ==>
         if exists k :: k in vocabulary && vocabulary[k] == id
         then byId[id] in vocabulary && vocabulary[byId[id]] == id else byId[id] == []
  }

  class NativeBpeTokenizer {
    var vocab: map<Token, int>
    var vocabById: seq<Token>
    var merges: map<Token, int>
    var addedTokens: seq<AddedToken>
    var eosId: int
    const classes: Classes

    function Tables(): Tables
      reads this
    {
      TokenTables.Tables(vocab, vocabById, merges, addedTokens, eosId, classes)
    }

    /** Loading from the parsed file: vocabulary, list of merges, added tokens. */
    constructor (vocabulary: map<Token, int>, mergeList: seq<(Token, Token)>, added: seq<AddedToken>, eos: int,
                 cls: Classes)
      ensures vocab == vocabulary && Inverts(vocabById, vocabulary)
      ensures merges == MergeTable(mergeList)
      ensures addedTokens == StableSorted(added)
      ensures eosId == eos && classes == cls
    {
      classes := cls;
      vocab := vocabulary;
      eosId := eos;
      addedTokens := StableSorted(added);
      vocabById := [];
      merges := map[];
      new;
      var byId := InvertVocabulary(vocabulary);
      vocabById := byId;
      var rank := 0;
      while rank < |mergeList|
        invariant 0 <= rank <= |mergeList|
        invariant merges == MergeTable(mergeList[..rank])
        invariant vocab == vocabulary && vocabById == byId && addedTokens == StableSorted(added) && eosId == eos
      {
        assert mergeList[..rank + 1][..rank] == mergeList[..rank];
        merges := merges[PairKey(mergeList[rank].0, mergeList[rank].1) := rank];
        rank := rank + 1;
      }
      assert mergeList[..rank] == mergeList;
    }

    static method InvertVocabulary(vocabulary: map<Token, int>) returns (byId: seq<Token>)
      ensures Inverts(byId, vocabulary)
    {
      byId := seq(|vocabulary|, _ => []);
      var todo := vocabulary.Keys;
      while todo != {}
        invariant todo <= vocabulary.Keys && |byId| == |vocabulary|
        invariant forall id :: 0 <= id < |byId| ==>
          if exists k :: k in vocabulary && k !in todo && vocabulary[k] == id
          then byId[id] in vocabulary && vocabulary[byId[id]] == id else byId[id] == []
        decreases |todo|
      {
        var k :| k in todo;
        var id := vocabulary[k];
        todo := todo - {k};
        if 0 <= id < |byId| {
          byId := byId[id := k];
        }
      }
    }

    /** The ids of one chunk: spell, merge, look up. */
    method EncodeChunk(chunk: seq<byte>) returns (ids: seq<int>)
      ensures ids == ChunkIds(Tables(), chunk)
    {
      hide Merged, Letters, WordIds, FallbackIds;
      var chars := Spell(chunk);
      var merged := Merge(merges, chars);
      ids := [];
      var i := 0;
      assert merged[0..] == merged;
      while i < |merged|
        invariant 0 <= i <= |merged|
        invariant WordIds(vocab, merged) == ids + WordIds(vocab, merged[i..])
      {
        WordIdsFrom(vocab, merged, i);
        var piece := merged[i];
        if piece in vocab {
          ids := ids + [vocab[piece]];
        } else {
          var rest := LookUpCharacters(piece);
          ids := ids + rest;
        }
        i := i + 1;
      }
      WordIdsFrom(vocab, merged, i);
    }

    method LookUpCharacters(piece: Token) returns (ids: seq<int>)
      ensures ids == FallbackIds(vocab, piece)
    {
      hide FallbackIds;
      ids := [];
      var c := 0;
      assert piece[0..] == piece;
      while c + 1 < |piece|
        invariant 0 <= c <= |piece|
        invariant FallbackIds(vocab, piece) == ids + FallbackIds(vocab, piece[c..])
      {
        FallbackFrom(vocab, piece, c);
        var n := LeadLen(piece[c]);
        var end := if c + n <= |piece| then c + n else |piece|;
        if piece[c..end] in vocab {
          ids := ids + [vocab[piece[c..end]]];
        }
        c := end;
      }
      FallbackFrom(vocab, piece, c);
    }

    /** The first added token, in list order, that matches at pos. */
    method FindAdded(text: seq<byte>, pos: nat) returns (best: Option<nat>)
      ensures best == FirstAdded(addedTokens, text, pos, 0)
    {
      var k := 0;
      while k < |addedTokens|
        invariant 0 <= k <= |addedTokens|
        invariant FirstAdded(addedTokens, text, pos, 0) == FirstAdded(addedTokens, text, pos, k)
      {
        if MatchesAt(addedTokens[k], text, pos) {
          return Some(k);
        }
        k := k + 1;
      }
      return None;
    }

    /** Splits the text at the added tokens. */
    method FindSpans(text: seq<byte>) returns (spans: seq<Span>)
      requires NonEmptyContents(addedTokens)
      ensures spans == Spans(addedTokens, text, 0)
    {
      hide Spans;
      spans := [];
      var pos := 0;
      while pos < |text|
        invariant 0 <= pos <= |text|
        invariant Spans(addedTokens, text, 0) == spans + Spans(addedTokens, text, pos)
        decreases |text| - pos
      {
        SpansFrom(addedTokens, text, pos);
        var best := FindAdded(text, pos);
        if best.Some? {
          var end := pos + |addedTokens[best.value].content|;
          spans := spans + [Special(best.value, pos, end)];
          pos := end;
        } else {
          var x := pos;
          while x < |text|
            invariant pos <= x <= |text|
            invariant NextAdded(addedTokens, text, pos) == NextAdded(addedTokens, text, x)
          {
            NextFrom(addedTokens, text, x);
            var startAtX := FindAdded(text, x);
            if startAtX.Some? {
              break;
            }
            x := x + 1;
          }
          NextFrom(addedTokens, text, x);
          spans := spans + [Plain(pos, x)];
          pos := x;
        }
      }
      SpansFrom(addedTokens, text, pos);
    }

    method EncodePlain(text: seq<byte>) returns (ids: seq<int>)
      ensures ids == ChunksIds(Tables(), Split(classes, text))
    {
      hide Split, ChunkIds, ChunksIds;
      var chunks := SplitText(classes, text);
      ids := [];
      var i := 0;
      assert chunks[0..] == chunks;
      while i < |chunks|
        invariant 0 <= i <= |chunks|
        invariant ChunksIds(Tables(), chunks) == ids + ChunksIds(Tables(), chunks[i..])
      {
        ChunksIdsFrom(Tables(), chunks, i);
        var cids := EncodeChunk(chunks[i]);
        ids := ids + cids;
        i := i + 1;
      }
      ChunksIdsFrom(Tables(), chunks, i);
    }

    method EncodeSpan(text: seq<byte>, sp: Span) returns (ids: seq<int>)
      requires Within(sp, addedTokens, text)
      ensures ids == SpanIds(Tables(), text, sp)
    {
      match sp
      case Special(k, _, _) =>
        ids := [addedTokens[k].id];
      case Plain(b, e) =>
        if b == e {
          return [];
        }
        ids := EncodePlain(text[b..e]);
    }

    method Encode(text: seq<byte>, addSpecial: bool) returns (ids: seq<int>)
      requires NonEmptyContents(addedTokens)
      ensures ids == EncodeIds(Tables(), text, addSpecial)
    {
      hide Spans, SpanIds, SpansIds, Within;
      var spans := FindSpans(text);
      SpansWithin(addedTokens, text, 0);
      ids := [];
      var i := 0;
      assert spans[0..] == spans;
      while i < |spans|
        invariant 0 <= i <= |spans|
        invariant forall j :: 0 <= j < |spans| ==> Within(spans[j], addedTokens, text)
        invariant SpansIds(Tables(), text, spans) == ids + SpansIds(Tables(), text, spans[i..])
      {
        SpansIdsFrom(Tables(), text, spans, i);
        var sids := EncodeSpan(text, spans[i]);
        ids := ids + sids;
        i := i + 1;
      }
      SpansIdsFrom(Tables(), text, spans, i);
      if addSpecial && eosId >= 0 {
        if ids == [] || ids[|ids| - 1] != eosId {
          ids := ids + [eosId];
        }
      }
    }

    method CollectSpecials() returns (specials: map<int, Token>)
      ensures specials == Specials(addedTokens)
    {
      specials := map[];
      var k := 0;
      while k < |addedTokens|
        invariant 0 <= k <= |addedTokens|
        invariant specials == Specials(addedTokens[..k])
      {
        assert addedTokens[..k + 1][..k] == addedTokens[..k];
        specials := specials[addedTokens[k].id := addedTokens[k].content];
        k := k + 1;
      }
      assert addedTokens[..k] == addedTokens;
    }

    method Decode(ids: seq<int>, skipSpecial: bool) returns (out: seq<byte>)
      ensures out == Utf8.Sanitised(DecodedBytes(Tables(), ids, skipSpecial))
    {
      hide TokenBytes, Specials, Utf8.Sanitised, DecodedBytes;
      var specials := CollectSpecials();
      var bytes: seq<byte> := [];
      var i := 0;
      assert ids[0..] == ids;
      while i < |ids|
        invariant 0 <= i <= |ids|
        invariant DecodedBytes(Tables(), ids, skipSpecial) == bytes + DecodedBytes(Tables(), ids[i..], skipSpecial)
      {
        DecodedFrom(Tables(), ids, i, skipSpecial);
        var id := ids[i];
        i := i + 1;
        if id in specials {
          if !skipSpecial {
            bytes := bytes + specials[id];
          }
          continue;
        }
        if id < 0 || id >= |vocabById| {
          continue;
        }
        var piece := ReadToken(vocabById[id]);
        bytes := bytes + piece;
      }
      DecodedFrom(Tables(), ids, i, skipSpecial);
      assert bytes + [] == bytes;
      out := Utf8.Sanitise(bytes);
    }

    /** On loaded tables that meet the conditions, decode undoes encode. */
    method RoundTripText(text: seq<byte>) returns (out: seq<byte>)
      requires GoodVocabulary(Tables()) && LongestFirst(addedTokens) && SpecialsInvert(addedTokens)
      ensures out == Utf8.Sanitised(text)
      ensures Utf8.WellFormed(text) ==> out == text
    {
      DecodeEncode(Tables(), text);
      Utf8.SanitisedIffWellFormed(text);
      var ids := Encode(text, false);
      out := Decode(ids, false);
    }
  }

  // ---------------------------------------------------------------- from the file to the round trip

  /** What a file must say: ids of the vocabulary are a bijection onto 0..n-1,
      every byte has its symbol, every merge result is in the vocabulary, and added
      tokens have contents and ids outside the vocabulary. */
  ghost predicate GoodInput(vocabulary: map<Token, int>, mergeList: seq<(Token, Token)>, added: seq<AddedToken>) {
    && (forall k :: k in vocabulary ==> 0 <= vocabulary[k] < |vocabulary|)
    && (forall j, k :: j in vocabulary && k in vocabulary && vocabulary[j] == vocabulary[k] ==> j == k)
    && (forall b: byte :: Symbol(b) in vocabulary)
    && MergeClosed(mergeList, vocabulary.Keys)
    && (forall a :: a in added ==> a.content != [] && forall k :: k in vocabulary ==> a.id != vocabulary[k])
  }

  /** The tables are those loading makes of the file. */
  ghost predicate Loaded(vocabulary: map<Token, int>, mergeList: seq<(Token, Token)>, added: seq<AddedToken>,
                         t: Tables) {
    && t.vocab == vocabulary && Inverts(t.vocabById, vocabulary)
    && t.merges == MergeTable(mergeList) && t.added == StableSorted(added)
  }

  /** When ids are a bijection onto 0..n-1 the id table inverts the vocabulary. */
  lemma LoadedIdsInvert(t: Tables)
    requires Inverts(t.vocabById, t.vocab)
    requires forall k :: k in t.vocab ==> 0 <= t.vocab[k] < |t.vocab|
    requires forall j, k :: j in t.vocab && k in t.vocab && t.vocab[j] == t.vocab[k] ==> j == k
    ensures IdsInvert(t)
  {
    forall k | k in t.vocab ensures t.vocabById[t.vocab[k]] == k {
      var id := t.vocab[k];
      assert t.vocabById[id] in t.vocab && t.vocab[t.vocabById[id]] == t.vocab[k];
    }
  }

  lemma SortedMembers(added: seq<AddedToken>)
    ensures forall a :: a in StableSorted(added) <==> a in added
  {
    StableSortedFacts(added);
    hide StableSorted;
    forall a ensures a in StableSorted(added) <==> a in added {
      assert a in StableSorted(added) <==> a in multiset(StableSorted(added));
      assert a in added <==> a in multiset(added);
    }
  }

  lemma SortedAddedApart(vocabulary: map<Token, int>, added: seq<AddedToken>, t: Tables)
    requires forall a :: a in added ==> a.content != [] && forall k :: k in vocabulary ==> a.id != vocabulary[k]
    requires t.vocab == vocabulary && t.added == StableSorted(added)
    ensures AddedApart(t)
  {
    SortedMembers(added);
    hide StableSorted;
    assert forall i :: 0 <= i < |t.added| ==> t.added[i] in t.added;
  }

  /** A good file loads into good tables, added tokens longest first. */
  lemma LoadedTablesGood(vocabulary: map<Token, int>, mergeList: seq<(Token, Token)>, added: seq<AddedToken>, t: Tables)
    requires GoodInput(vocabulary, mergeList, added) && Loaded(vocabulary, mergeList, added, t)
    ensures GoodVocabulary(t) && LongestFirst(t.added)
  {
    hide Inverts, StableSorted, MergeTable, Symbol, MergeClosed, AddedApart, IdsInvert, LongestFirst;
    LoadedIdsInvert(t);
    StableSortedFacts(added);
    SortedAddedApart(vocabulary, added, t);
  }

  /** What the file must further say about its added tokens, exactly: every text
      comes back from a good file if and only if the ids of the sorted list invert. */
  lemma LoadedRoundTripExact(vocabulary: map<Token, int>, mergeList: seq<(Token, Token)>, added: seq<AddedToken>,
                             t: Tables)
    requires GoodInput(vocabulary, mergeList, added) && Loaded(vocabulary, mergeList, added, t)
    ensures NonEmptyContents(t.added)
    ensures (forall text :: DecodedBytes(t, EncodeIds(t, text, false), false) == text)
       <==> SpecialsInvert(StableSorted(added))
  {
    LoadedTablesGood(vocabulary, mergeList, added, t);
    hide GoodVocabulary, LongestFirst, SpecialsInvert, StableSorted, GoodInput, DecodedBytes, EncodeIds;
    RoundTripIffSpecialsInvert(t);
  }

  /** Loading a good file and decoding what it encodes gives the text back. */
  method LoadedRoundTrip(vocabulary: map<Token, int>, mergeList: seq<(Token, Token)>, added: seq<AddedToken>, eos: int,
                         cls: Classes, text: seq<byte>) returns (out: seq<byte>)
    requires GoodInput(vocabulary, mergeList, added) && SpecialsInvert(StableSorted(added))
    ensures out == Utf8.Sanitised(text)
    ensures Utf8.WellFormed(text) ==> out == text
  {
    var tokenizer := new NativeBpeTokenizer(vocabulary, mergeList, added, eos, cls);
    LoadedTablesGood(vocabulary, mergeList, added, tokenizer.Tables());
    out := tokenizer.RoundTripText(text);
  }
}
