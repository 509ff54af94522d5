/** What the native tokenizer computes, as functions of its loaded tables. */
module TokenTables {
  import opened Bytes
  import opened Bpe
  import opened PreTokenize
  import opened ByteLevel

  datatype AddedToken = AddedToken(content: Token, id: int)

  datatype Tables = Tables(vocab: map<Token, int>, vocabById: seq<Token>, merges: map<Token, int>,
                           added: seq<AddedToken>, eosId: int, classes: Classes)

  // ---------------------------------------------------------------- spans

  predicate MatchesAt(t: AddedToken, text: seq<byte>, pos: nat) {
    pos + |t.content| <= |text| && text[pos..pos + |t.content|] == t.content
  }

  /** The first listed token, from the k-th on, that matches at pos. */
  function FirstAdded(added: seq<AddedToken>, text: seq<byte>, pos: nat, k: nat): (r: Option<nat>)
    requires k <= |added|
    ensures r.Some? ==> k <= r.value < |added| && MatchesAt(added[r.value], text, pos)
    ensures forall j :: k <= j < (if r.Some? then r.value else |added|) ==> !MatchesAt(added[j], text, pos)
    decreases |added| - k
  {
    if k == |added| then None
    else if MatchesAt(added[k], text, pos) then Some(k)
    else FirstAdded(added, text, pos, k + 1)
  }

  /** The first position from x on where some added token matches, or the end. */
  function NextAdded(added: seq<AddedToken>, text: seq<byte>, x: nat): (y: nat)
    requires x <= |text|
    ensures x <= y <= |text|
    ensures y < |text| ==> FirstAdded(added, text, y, 0).Some?
    ensures forall z :: x <= z < y ==> FirstAdded(added, text, z, 0).None?
    decreases |text| - x
  {
    if x == |text| || FirstAdded(added, text, x, 0).Some? then x else NextAdded(added, text, x + 1)
  }

  datatype Span = Special(token: nat, begin: nat, end: nat) | Plain(begin: nat, end: nat)

  ghost predicate NonEmptyContents(added: seq<AddedToken>) {
    forall k :: 0 <= k < |added| ==> added[k].content != []
  }

  function Spans(added: seq<AddedToken>, text: seq<byte>, pos: nat): seq<Span>
    requires pos <= |text| && NonEmptyContents(added)
    decreases |text| - pos
  {
    if pos == |text| then []
    else
      match FirstAdded(added, text, pos, 0)
      case Some(k) =>
        var end := pos + |added[k].content|;
        [Special(k, pos, end)] + Spans(added, text, end)
      case None =>
        var x := NextAdded(added, text, pos);
        [Plain(pos, x)] + Spans(added, text, x)
  }

  // ---------------------------------------------------------------- ids

  /** The length a lead byte announces. */
  function LeadLen(b: byte): (n: nat)
    ensures 1 <= n <= 4
  {
    if b >= 0xF0 then 4 else if b >= 0xE0 then 3 else if b >= 0xC0 then 2 else 1
  }

  /** For a piece the vocabulary lacks, the ids of its characters; the loop
      stops one byte before the end, so a last one-byte character is skipped. */
  function FallbackIds(vocab: map<Token, int>, rest: Token): seq<int> {
    if |rest| <= 1 then []
    else
      var n := if LeadLen(rest[0]) <= |rest| then LeadLen(rest[0]) else |rest|;
      (if rest[..n] in vocab then [vocab[rest[..n]]] else []) + FallbackIds(vocab, rest[n..])
  }

  function PieceIds(vocab: map<Token, int>, piece: Token): seq<int> {
    if piece in vocab then [vocab[piece]] else FallbackIds(vocab, piece)
  }

  function WordIds(vocab: map<Token, int>, word: seq<Token>): seq<int> {
    if word == [] then [] else PieceIds(vocab, word[0]) + WordIds(vocab, word[1..])
  }

  function ChunkIds(t: Tables, chunk: seq<byte>): seq<int> {
    WordIds(t.vocab, Merged(t.merges, Letters(chunk)))
  }

  function ChunksIds(t: Tables, chunks: seq<seq<byte>>): seq<int> {
    if chunks == [] then [] else ChunkIds(t, chunks[0]) + ChunksIds(t, chunks[1..])
  }

  predicate Within(sp: Span, added: seq<AddedToken>, text: seq<byte>) {
    sp.begin <= sp.end <= |text| && (sp.Special? ==> sp.token < |added|)
  }

  function SpanIds(t: Tables, text: seq<byte>, sp: Span): seq<int>
    requires Within(sp, t.added, text)
  {
    match sp
    case Special(k, _, _) => [t.added[k].id]
    case Plain(b, e) => if b == e then [] else ChunksIds(t, Split(t.classes, text[b..e]))
  }

  function SpansIds(t: Tables, text: seq<byte>, spans: seq<Span>): seq<int>
    requires forall i :: 0 <= i < |spans| ==> Within(spans[i], t.added, text)
  {
    if spans == [] then [] else SpanIds(t, text, spans[0]) + SpansIds(t, text, spans[1..])
  }

  lemma {:induction false} SpansWithin(added: seq<AddedToken>, text: seq<byte>, pos: nat)
    requires pos <= |text| && NonEmptyContents(added)
    ensures forall i :: 0 <= i < |Spans(added, text, pos)| ==> Within(Spans(added, text, pos)[i], added, text)
    decreases |text| - pos
  {
    if pos < |text| {
      match FirstAdded(added, text, pos, 0)
      case Some(k) => SpansWithin(added, text, pos + |added[k].content|);
      case None => SpansWithin(added, text, NextAdded(added, text, pos));
    }
  }

  /** encode without the end-of-sequence id. */
  function PlainIds(t: Tables, text: seq<byte>): seq<int>
    requires NonEmptyContents(t.added)
  {
    SpansWithin(t.added, text, 0);
    SpansIds(t, text, Spans(t.added, text, 0))
  }

  /** The end id appended where it is known and missing. */
  function WithEnd(ids: seq<int>, eosId: int): seq<int> {
    if eosId >= 0 && (ids == [] || ids[|ids| - 1] != eosId) then ids + [eosId] else ids
  }

  function EncodeIds(t: Tables, text: seq<byte>, addSpecial: bool): seq<int>
    requires NonEmptyContents(t.added)
  {
    if addSpecial then WithEnd(PlainIds(t, text), t.eosId) else PlainIds(t, text)
  }

  predicate EndsIn(ids: seq<int>, id: int) {
    ids != [] && ids[|ids| - 1] == id
  }

  /** Encoding with the end id adds at most that one id, and only where it was
      missing; the result ends in it, once more asked for or not. */
  lemma EndIdOnce(t: Tables, text: seq<byte>)
    requires NonEmptyContents(t.added)
    ensures var (plain, ids) := (EncodeIds(t, text, false), EncodeIds(t, text, true));
      && (ids == plain || ids == plain + [t.eosId])
      && (ids == plain <==> t.eosId < 0 || EndsIn(plain, t.eosId))
      && (EndsIn(ids, t.eosId) <==> t.eosId >= 0 || EndsIn(plain, t.eosId))
      && WithEnd(ids, t.eosId) == ids
  {
    hide PlainIds;
  }

  // ---------------------------------------------------------------- decoding

  /** Contents by id; a later token of the list wins. */
  function Specials(added: seq<AddedToken>): map<int, Token> {
    if added == [] then map[]
    else
      var n := |added| - 1;
      Specials(added[..n])[added[n].id := added[n].content]
  }

  function IdBytes(t: Tables, id: int, skipSpecial: bool): seq<byte> {
    if id in Specials(t.added) then (if skipSpecial then [] else Specials(t.added)[id])
    else if 0 <= id < |t.vocabById| then TokenBytes(t.vocabById[id])
    else []
  }

  /** The bytes decode collects before its final pass. */
  function DecodedBytes(t: Tables, ids: seq<int>, skipSpecial: bool): seq<byte> {
    if ids == [] then [] else IdBytes(t, ids[0], skipSpecial) + DecodedBytes(t, ids[1..], skipSpecial)
  }
}
