/** Byte-pair merging: which pair is merged next, what the merge loop ends
    with, and what the "a b" string form of a merge key means. */
module Bpe {
  import opened Bytes

  type Token = seq<byte>

  const SPACE: byte := 0x20
  const NO_RANK: int := 0x7FFF_FFFF

  // ---------------------------------------------------------------- the merge table

  function PairKey(a: Token, b: Token): Token {
    a + [SPACE] + b
  }

  /** The table as loading fills it: the rank of a key is the position of its
      last occurrence in the list of merges. */
  function MergeTable(pairs: seq<(Token, Token)>): map<Token, int> {
    if pairs == [] then map[]
    else
      var n := |pairs| - 1;
      MergeTable(pairs[..n])[PairKey(pairs[n].0, pairs[n].1) := n]
  }

  /** The last position of a pair in the list, -1 when it is not listed. */
  function LastIndex(pairs: seq<(Token, Token)>, p: (Token, Token)): (i: int)
    ensures -1 <= i < |pairs|
    ensures i >= 0 ==> pairs[i] == p && forall j :: i < j < |pairs| ==> pairs[j] != p
    ensures i < 0 ==> p !in pairs
  {
    if pairs == [] then -1
    else
      var n := |pairs| - 1;
      if pairs[n] == p then n else LastIndex(pairs[..n], p)
  }

  lemma PairKeySplits(a: Token, b: Token, x: Token, y: Token)
    requires SPACE !in a && SPACE !in b && PairKey(a, b) == PairKey(x, y)
    ensures a == x && b == y
  {
    var s := PairKey(a, b);
    assert s[|x|] == SPACE;
    assert forall i :: 0 <= i < |s| && i != |a| ==> s[i] != SPACE;
    assert |x| == |a|;
    assert s[..|a|] == a && s[..|a|] == x;
    assert s[|a| + 1..] == b && s[|a| + 1..] == y;
  }

  /** For pieces without a space, looking the pair up under its string form is
      looking up the pair itself. */
  lemma {:induction false} PairLookup(pairs: seq<(Token, Token)>, a: Token, b: Token)
    requires SPACE !in a && SPACE !in b
    ensures PairKey(a, b) in MergeTable(pairs) <==> (a, b) in pairs
    ensures (a, b) in pairs ==> MergeTable(pairs)[PairKey(a, b)] == LastIndex(pairs, (a, b))
  {
    if pairs != [] {
      var n := |pairs| - 1;
      PairLookup(pairs[..n], a, b);
      assert pairs == pairs[..n] + [pairs[n]];
      if PairKey(pairs[n].0, pairs[n].1) == PairKey(a, b) {
        PairKeySplits(a, b, pairs[n].0, pairs[n].1);
      }
    }
  }

  lemma {:induction false} RanksBounded(pairs: seq<(Token, Token)>)
    ensures forall k :: k in MergeTable(pairs) ==> 0 <= MergeTable(pairs)[k] < |pairs|
  {
    if pairs != [] { RanksBounded(pairs[..|pairs| - 1]); }
  }

  // ---------------------------------------------------------------- merging

  function Rank(merges: map<Token, int>, a: Token, b: Token): int {
    if PairKey(a, b) in merges then merges[PairKey(a, b)] else NO_RANK
  }

  function RankAt(merges: map<Token, int>, word: seq<Token>, k: nat): int
    requires k + 1 < |word|
  {
    Rank(merges, word[k], word[k + 1])
  }

  /** The leftmost of the lowest-ranked adjacent pairs among the first n, -1 when none has a rank. */
  function BestPair(merges: map<Token, int>, word: seq<Token>, n: nat): (best: (int, int))
    requires n < |word| || n == 0
    ensures -1 <= best.0 < n
    ensures best.0 < 0 ==> best.1 == NO_RANK
    ensures best.0 >= 0 ==> best.1 == RankAt(merges, word, best.0) < NO_RANK
    ensures forall j :: 0 <= j < n ==> RankAt(merges, word, j) >= best.1
    ensures forall j :: 0 <= j < best.0 ==> RankAt(merges, word, j) > best.1
  {
    if n == 0 then (-1, NO_RANK)
    else
      var best := BestPair(merges, word, n - 1);
      var r := RankAt(merges, word, n - 1);
      if r < best.1 then (n - 1, r) else best
  }

  function ReplacePair(word: seq<Token>, i: nat): (w: seq<Token>)
    requires i + 1 < |word|
    ensures |w| == |word| - 1
  {
    word[..i] + [word[i] + word[i + 1]] + word[i + 2..]
  }

  /** The word after merging as long as some adjacent pair has a rank. */
  function Merged(merges: map<Token, int>, word: seq<Token>): seq<Token>
    decreases |word|
  {
    if |word| < 2 then word
    else
      var i := BestPair(merges, word, |word| - 1).0;
      if i < 0 then word else Merged(merges, ReplacePair(word, i))
  }

  // ---------------------------------------------------------------- what merging means

  /** The pair at i has a rank in the table. */
  ghost predicate Ranked(merges: map<Token, int>, word: seq<Token>, i: int) {
    && 0 <= i < |word| - 1
    && PairKey(word[i], word[i + 1]) in merges && merges[PairKey(word[i], word[i + 1])] < NO_RANK
  }

  /** The pair at i has a rank no higher than the pair at j. */
  ghost predicate NotAfter(merges: map<Token, int>, word: seq<Token>, i: int, j: int)
    requires Ranked(merges, word, i) && Ranked(merges, word, j)
  {
    merges[PairKey(word[i], word[i + 1])] <= merges[PairKey(word[j], word[j + 1])]
  }

  /** next is word with its pair at i joined, and no pair of word ranks lower, nor
      as low further left. */
  ghost predicate JoinsAt(merges: map<Token, int>, word: seq<Token>, next: seq<Token>, i: int) {
    && Ranked(merges, word, i)
    && (forall j :: Ranked(merges, word, j) ==> NotAfter(merges, word, i, j))
    && (forall j :: j < i && Ranked(merges, word, j) ==> !NotAfter(merges, word, j, i))
    && |next| == |word| - 1 && next[i] == word[i] + word[i + 1]
    && (forall j :: 0 <= j < i ==> next[j] == word[j])
    && (forall j :: i < j < |next| ==> next[j] == word[j + 1])
  }

  ghost predicate Joins(merges: map<Token, int>, word: seq<Token>, next: seq<Token>) {
    exists i :: JoinsAt(merges, word, next, i)
  }

  /** Each word of the list comes from the one before by one such joining. */
  ghost predicate Joinings(merges: map<Token, int>, words: seq<seq<Token>>) {
    words != [] && forall n :: 0 < n < |words| ==> Joins(merges, words[n - 1], words[n])
  }

  ghost predicate Finished(merges: map<Token, int>, word: seq<Token>) {
    forall i :: !Ranked(merges, word, i)
  }

  /** Joining lowest ranks first leads from word to end, where nothing is left to join. */
  ghost predicate MergesTo(merges: map<Token, int>, word: seq<Token>, end: seq<Token>) {
    && Finished(merges, end)
    && exists words :: Joinings(merges, words) && words[0] == word && words[|words| - 1] == end
  }

  /** A joining can only be the one of the best pair. */
  lemma JoinsBest(merges: map<Token, int>, word: seq<Token>, next: seq<Token>)
    ensures var i := if |word| < 2 then -1 else BestPair(merges, word, |word| - 1).0;
      && (i < 0 ==> Finished(merges, word))
      && (Joins(merges, word, next) <==> i >= 0 && next == ReplacePair(word, i))
  {
    if |word| >= 2 {
      var i := BestPair(merges, word, |word| - 1).0;
      forall j | Ranked(merges, word, j) ensures i >= 0 {
        assert RankAt(merges, word, j) == merges[PairKey(word[j], word[j + 1])] < NO_RANK;
      }
      if i >= 0 {
        JoinsAtBest(merges, word, i);
      }
      if Joins(merges, word, next) {
        var j :| JoinsAt(merges, word, next, j);
        assert i == j;
        assert next == ReplacePair(word, i);
      }
    }
  }

  lemma JoinsAtBest(merges: map<Token, int>, word: seq<Token>, i: nat)
    requires i + 1 < |word| && BestPair(merges, word, |word| - 1).0 == i
    ensures JoinsAt(merges, word, ReplacePair(word, i), i)
  {
    assert RankAt(merges, word, i) < NO_RANK;
    forall j | Ranked(merges, word, j) ensures NotAfter(merges, word, i, j) {
      assert RankAt(merges, word, j) >= RankAt(merges, word, i);
    }
    forall j | j < i && Ranked(merges, word, j) ensures !NotAfter(merges, word, j, i) {
      assert RankAt(merges, word, j) > RankAt(merges, word, i);
    }
  }

  lemma {:induction false} MergedIsReached(merges: map<Token, int>, word: seq<Token>) returns (words: seq<seq<Token>>)
    ensures Joinings(merges, words) && words[0] == word && words[|words| - 1] == Merged(merges, word)
    ensures Finished(merges, Merged(merges, word))
    decreases |word|
  {
    hide Joins, BestPair, ReplacePair, Finished;
    var i := if |word| < 2 then -1 else BestPair(merges, word, |word| - 1).0;
    JoinsBest(merges, word, if i < 0 then word else ReplacePair(word, i));
    if i < 0 {
      words := [word];
    } else {
      var rest := MergedIsReached(merges, ReplacePair(word, i));
      words := [word] + rest;
      assert forall n :: 0 < n < |words| ==> words[n] == rest[n - 1];
    }
  }

  lemma {:induction false} ReachedIsMerged(merges: map<Token, int>, words: seq<seq<Token>>)
    requires Joinings(merges, words) && Finished(merges, words[|words| - 1])
    ensures words[|words| - 1] == Merged(merges, words[0])
    decreases |words|
  {
    hide Joins, BestPair, ReplacePair, Finished;
    if |words| == 1 {
      StuckStays(merges, words[0]);
    } else {
      JoinsBest(merges, words[0], words[1]);
      assert Joins(merges, words[0], words[1]);
      assert forall n :: 0 <= n < |words| - 1 ==> words[1..][n] == words[n + 1];
      ReachedIsMerged(merges, words[1..]);
    }
  }

  lemma StuckStays(merges: map<Token, int>, word: seq<Token>)
    requires Finished(merges, word)
    ensures Merged(merges, word) == word
  {
    if |word| >= 2 {
      assert !Ranked(merges, word, BestPair(merges, word, |word| - 1).0);
    }
  }

  /** What the merge loop computes is the one word that joining lowest ranks first,
      leftmost first among equals, leads to. */
  lemma MergedExactly(merges: map<Token, int>, word: seq<Token>, end: seq<Token>)
    ensures MergesTo(merges, word, end) <==> end == Merged(merges, word)
  {
    hide Joins, Finished, Merged;
    if MergesTo(merges, word, end) {
      var words :| Joinings(merges, words) && words[0] == word && words[|words| - 1] == end;
      ReachedIsMerged(merges, words);
    }
    var words := MergedIsReached(merges, word);
  }

  method FindBestPair(merges: map<Token, int>, word: seq<Token>) returns (bestIdx: int, bestRank: int)
    requires |word| >= 2
    ensures (bestIdx, bestRank) == BestPair(merges, word, |word| - 1)
  {
    bestRank, bestIdx := NO_RANK, -1;
    var k := 0;
    while k + 1 < |word|
      invariant 0 <= k < |word|
      invariant (bestIdx, bestRank) == BestPair(merges, word, k)
    {
      var key := PairKey(word[k], word[k + 1]);
      var r := if key !in merges then NO_RANK else merges[key];
      if r < bestRank {
        bestRank, bestIdx := r, k;
      }
      k := k + 1;
    }
  }

  method Merge(merges: map<Token, int>, chars: seq<Token>) returns (word: seq<Token>)
    ensures word == Merged(merges, chars)
    ensures MergesTo(merges, chars, word)
  {
    hide MergesTo;
    MergedExactly(merges, chars, Merged(merges, chars));
    word := chars;
    if |word| < 2 {
      return;
    }
    while |word| >= 2
      invariant Merged(merges, word) == Merged(merges, chars)
      decreases |word|
    {
      var idx, _ := FindBestPair(merges, word);
      if idx < 0 {
        break;
      }
      var first, second := word[idx], word[idx + 1];
      ghost var before := word;
      word := word[idx := first + second];
      word := word[..idx + 1] + word[idx + 2..];
      assert word == ReplacePair(before, idx);
      if |word| == 1 {
        break;
      }
    }
  }

  // ---------------------------------------------------------------- what merging keeps

  lemma JoinPair(a: Token, b: Token)
    ensures Join([a, b]) == a + b && Join([a + b]) == a + b
  {
    assert [a, b][1..] == [b] && [b][1..] == [] && [a + b][1..] == [];
    assert Join([b]) == b + Join([]) == b;
    assert Join([a + b]) == (a + b) + Join([]) == a + b;
  }

  lemma JoinMiddle(pre: seq<Token>, u: seq<Token>, v: seq<Token>, post: seq<Token>)
    requires Join(u) == Join(v)
    ensures Join(pre + u + post) == Join(pre + v + post)
  {
    hide Join;
    JoinConcat(pre + u, post);
    JoinConcat(pre, u);
    JoinConcat(pre + v, post);
    JoinConcat(pre, v);
  }

  lemma ReplacePairJoin(word: seq<Token>, i: nat)
    requires i + 1 < |word|
    ensures Join(ReplacePair(word, i)) == Join(word)
  {
    hide Join;
    SplitAtPair(word, i);
    JoinPair(word[i], word[i + 1]);
    JoinMiddle(word[..i], [word[i], word[i + 1]], [word[i] + word[i + 1]], word[i + 2..]);
  }

  lemma SplitAtPair<T>(s: seq<T>, i: nat)
    requires i + 1 < |s|
    ensures s == s[..i] + [s[i], s[i + 1]] + s[i + 2..]
  {
  }

  /** Merging only regroups: the concatenation of the pieces stays the same. */
  lemma {:induction false} MergedJoin(merges: map<Token, int>, word: seq<Token>)
    ensures Join(Merged(merges, word)) == Join(word)
    decreases |word|
  {
    hide Join;
    if |word| >= 2 {
      var i := BestPair(merges, word, |word| - 1).0;
      if i >= 0 {
        ReplacePairJoin(word, i);
        MergedJoin(merges, ReplacePair(word, i));
      }
    }
  }

  ghost predicate Stuck(merges: map<Token, int>, w: seq<Token>) {
    forall k :: 0 <= k < |w| - 1 ==> PairKey(w[k], w[k + 1]) !in merges
  }

  /** Merging stops only when no adjacent pair is in the table. */
  lemma {:induction false} MergedIsStuck(merges: map<Token, int>, word: seq<Token>)
    requires forall k :: k in merges ==> merges[k] < NO_RANK
    ensures Stuck(merges, Merged(merges, word))
    decreases |word|
  {
    if |word| >= 2 {
      var i := BestPair(merges, word, |word| - 1).0;
      if i >= 0 {
        MergedIsStuck(merges, ReplacePair(word, i));
      } else {
        forall k | 0 <= k < |word| - 1 ensures PairKey(word[k], word[k + 1]) !in merges {
          assert RankAt(merges, word, k) >= NO_RANK;
        }
      }
    }
  }

  /** Every piece is in the vocabulary and free of spaces. */
  ghost predicate Known(word: seq<Token>, vocab: set<Token>) {
    forall i :: 0 <= i < |word| ==> word[i] in vocab && SPACE !in word[i]
  }

  /** Every listed merge produces a vocabulary token. */
  ghost predicate MergeClosed(pairs: seq<(Token, Token)>, vocab: set<Token>) {
    forall p :: p in pairs ==> p.0 + p.1 in vocab
  }

  lemma ReplacePairKnown(pairs: seq<(Token, Token)>, vocab: set<Token>, word: seq<Token>, i: nat)
    requires Known(word, vocab) && MergeClosed(pairs, vocab) && i + 1 < |word|
    requires RankAt(MergeTable(pairs), word, i) < NO_RANK
    ensures Known(ReplacePair(word, i), vocab)
  {
    PairLookup(pairs, word[i], word[i + 1]);
    var w := ReplacePair(word, i);
    assert w[i] == word[i] + word[i + 1] && (word[i], word[i + 1]) in pairs;
    forall j | 0 <= j < |w| && j != i ensures w[j] in vocab && SPACE !in w[j] {
      assert w[j] == word[if j < i then j else j + 1];
    }
  }

  /** From known letters a merge-closed list of merges reaches only known pieces. */
  lemma {:induction false} MergedKnown(pairs: seq<(Token, Token)>, vocab: set<Token>, word: seq<Token>)
    requires Known(word, vocab) && MergeClosed(pairs, vocab)
    ensures Known(Merged(MergeTable(pairs), word), vocab)
    decreases |word|
  {
    if |word| >= 2 {
      var i := BestPair(MergeTable(pairs), word, |word| - 1).0;
      if i >= 0 {
        ReplacePairKnown(pairs, vocab, word, i);
        MergedKnown(pairs, vocab, ReplacePair(word, i));
      }
    }
  }
}
