/** The token loop of the forward engine over the key/value cache. The numeric
    kernels are arbitrary deterministic functions; what is modelled is which
    cells are written and read, in which order, and what the caller gets. */
module ForwardModel {
  import opened KvModel

  /** The model's kernels and configuration. dsa says which layers run the
      indexer; the other layers reuse the last selection. */
  datatype Model = Model(
    shape: Shape, indexTopk: nat, dsa: nat -> bool,
    embed: int -> Vec,
    norm: (nat, Vec) -> Vec,
    keyOf: (nat, nat, Vec) -> Vec, valueOf: (nat, nat, Vec) -> Vec, indexKeyOf: (nat, nat, Vec) -> Vec,
    indexScore: (nat, nat, Vec, Vec) -> Float,
    score: (nat, nat, nat, Vec, Vec) -> Float,
    softmax: seq<Float> -> seq<Float>,
    accumulate: (Vec, Float, Vec) -> Vec,
    finish: (nat, Vec, seq<Vec>) -> Vec,
    sample: Vec -> nat)

  /** The kernels produce vectors of the sizes the cache stores, and one weight a score. */
  ghost predicate Sound(m: Model) {
    && (forall l: nat, t: nat, x: Vec :: DataFits(m.shape, Key, m.keyOf(l, t, x)))
    && (forall l: nat, t: nat, x: Vec :: DataFits(m.shape, Value, m.valueOf(l, t, x)))
    && (forall l: nat, t: nat, x: Vec :: DataFits(m.shape, Indexer, m.indexKeyOf(l, t, x)))
    && (forall s: seq<Float> :: |m.softmax(s)| == |s|)
  }

  // ---------------------------------------------------------------- selecting positions

  /** a comes before b: higher score, ties by position. */
  predicate Better(scores: seq<Float>, a: nat, b: nat)
    requires a < |scores| && b < |scores|
  {
    scores[a] > scores[b] || (scores[a] == scores[b] && a < b)
  }

  predicate Below(order: seq<nat>, n: nat) {
    forall i :: 0 <= i < |order| ==> order[i] < n
  }

  function InsertRanked(scores: seq<Float>, order: seq<nat>, x: nat): (r: seq<nat>)
    requires Below(order, |scores|) && x < |scores|
    ensures Below(r, |scores|)
  {
    if order == [] then [x]
    else if Better(scores, x, order[0]) then [x] + order
    else [order[0]] + InsertRanked(scores, order[1..], x)
  }

  /** The first n positions, best first. */
  function Ranking(scores: seq<Float>, n: nat): (r: seq<nat>)
    requires n <= |scores|
    ensures Below(r, |scores|)
  {
    if n == 0 then [] else InsertRanked(scores, Ranking(scores, n - 1), n - 1)
  }

  ghost predicate Ranked(scores: seq<Float>, order: seq<nat>)
    requires Below(order, |scores|)
  {
    forall i, j :: 0 <= i < j < |order| ==> Better(scores, order[i], order[j])
  }

  lemma {:induction false} InsertRankedKeeps(scores: seq<Float>, order: seq<nat>, x: nat)
    requires Below(order, |scores|) && x < |scores|
    ensures multiset(InsertRanked(scores, order, x)) == multiset(order) + multiset{x}
  {
    if order != [] && !Better(scores, x, order[0]) {
      InsertRankedKeeps(scores, order[1..], x);
      assert order == [order[0]] + order[1..];
    }
  }

  lemma {:induction false} InsertRankedRanks(scores: seq<Float>, order: seq<nat>, x: nat)
    requires Below(order, |scores|) && x < |scores| && Ranked(scores, order) && x !in order
    ensures Ranked(scores, InsertRanked(scores, order, x))
  {
    if order != [] && !Better(scores, x, order[0]) {
      var rest := InsertRanked(scores, order[1..], x);
      InsertRankedRanks(scores, order[1..], x);
      InsertRankedKeeps(scores, order[1..], x);
      assert order[0] in order;
      forall j | 0 <= j < |rest| ensures Better(scores, order[0], rest[j]) {
        assert rest[j] in multiset(rest);
        assert rest[j] == x || rest[j] in multiset(order[1..]);
        if rest[j] != x { assert rest[j] in order[1..]; }
      }
    }
  }

  /** The ranking lists every position below n once. */
  lemma {:induction false} RankingMembers(scores: seq<Float>, n: nat)
    requires n <= |scores|
    ensures |Ranking(scores, n)| == n
    ensures forall t: nat :: t in Ranking(scores, n) <==> t < n
  {
    hide InsertRanked, Ranking;
    RankingStep(scores, n);
    if n > 0 {
      RankingMembers(scores, n - 1);
      MembersPlus(Ranking(scores, n - 1), Ranking(scores, n), n - 1);
    }
  }

  lemma RankingStep(scores: seq<Float>, n: nat)
    requires n <= |scores|
    ensures n == 0 ==> Ranking(scores, n) == []
    ensures n > 0 ==>
      var last: nat := n - 1;
      multiset(Ranking(scores, n)) == multiset(Ranking(scores, last)) + multiset{last}
  {
    hide InsertRanked;
    if n > 0 { InsertRankedKeeps(scores, Ranking(scores, n - 1), n - 1); }
  }

  lemma MembersPlus(s: seq<nat>, r: seq<nat>, x: nat)
    requires multiset(r) == multiset(s) + multiset{x}
    ensures |r| == |s| + 1
    ensures forall t: nat :: t in r <==> t in s || t == x
  {
    assert |multiset(r)| == |multiset(s)| + 1;
    forall t: nat ensures t in r <==> t in s || t == x {
      assert t in r <==> t in multiset(r);
      assert t in s <==> t in multiset(s);
    }
  }

  /** Each position in the ranking is better than those behind it. */
  lemma {:induction false} RankingRanks(scores: seq<Float>, n: nat)
    requires n <= |scores|
    ensures Ranked(scores, Ranking(scores, n))
  {
    if n == 0 {
      assert Ranking(scores, n) == [];
    } else {
      var front := Ranking(scores, n - 1);
      assert Ranking(scores, n) == InsertRanked(scores, front, n - 1);
      hide Ranking, InsertRanked, Ranked, Better;
      RankingRanks(scores, n - 1);
      RankingMembers(scores, n - 1);
      InsertRankedRanks(scores, front, n - 1);
    }
  }

  /** The indexer's stable top-k. */
  function TopK(scores: seq<Float>, k: nat): (r: seq<nat>)
    ensures Below(r, |scores|)
  {
    var order := Ranking(scores, |scores|);
    order[..if k < |order| then k else |order|]
  }

  /** Exactly the k best positions are selected, best first. */
  lemma TopKIsBest(scores: seq<Float>, k: nat, a: nat, b: nat)
    requires a in TopK(scores, k) && b < |scores| && b !in TopK(scores, k)
    ensures a < |scores| && Better(scores, a, b)
    ensures |TopK(scores, k)| == if k < |scores| then k else |scores|
  {
    RankingMembers(scores, |scores|);
    RankingRanks(scores, |scores|);
    var order, top := Ranking(scores, |scores|), TopK(scores, k);
    var i :| 0 <= i < |top| && top[i] == a;
    assert b in order;
    var j :| 0 <= j < |order| && order[j] == b;
    assert order[i] == a;
    assert forall l :: 0 <= l < |top| ==> top[l] == order[l] && top[l] != b;
  }

  function Everything(n: nat): (r: seq<nat>)
    ensures |r| == n && Below(r, n)
  {
    seq(n, i => i)
  }

  /** The positions a layer attends to: the indexer's own, else those handed
      down, else all. */
  function Pick(m: Model, layer: nat, pos: nat, x: Vec, handed: seq<nat>, indexKeys: seq<Vec>): seq<nat> {
    var scores := seq(|indexKeys|, t requires 0 <= t < |indexKeys| => m.indexScore(layer, pos, x, indexKeys[t]));
    var sel := if m.dsa(layer) then TopK(scores, m.indexTopk)
               else handed;
    if sel == [] then Everything(pos + 1) else sel
  }

  /** What is handed from layer to layer never names a position after pos. */
  lemma PickInRange(m: Model, layer: nat, pos: nat, x: Vec, handed: seq<nat>, indexKeys: seq<Vec>)
    requires Below(handed, pos + 1) && (m.dsa(layer) ==> |indexKeys| == pos + 1)
    ensures Below(Pick(m, layer, pos, x, handed, indexKeys), pos + 1) && Pick(m, layer, pos, x, handed, indexKeys) != []
  {
  }

  // ---------------------------------------------------------------- one layer

  /** The first n cached vectors of a head. */
  ghost function History(v: View, kind: Kind, layer: nat, head: nat, n: nat): seq<Vec>
    requires Full(v) && layer < v.shape.numLayers && head < Heads(v.shape, kind) && n <= v.cap
  {
    seq(n, t requires 0 <= t < n => v.cells[Place(kind, layer, head, t)])
  }

  ghost function Histories(v: View, kind: Kind, layer: nat, n: nat): seq<seq<Vec>>
    requires Full(v) && layer < v.shape.numLayers && n <= v.cap
  {
    seq(Heads(v.shape, kind), h requires 0 <= h < Heads(v.shape, kind) => History(v, kind, layer, h, n))
  }

  /** The score of one selected position; positions out of range get none. */
  function ScoreAt(m: Model, layer: nat, pos: nat, h: nat, x: Vec, keys: seq<Vec>, t: nat): Float {
    if t >= |keys| then -1e30 else m.score(layer, pos, h, x, keys[t])
  }

  function Weights(m: Model, layer: nat, pos: nat, h: nat, x: Vec, sel: seq<nat>, keys: seq<Vec>): seq<Float> {
    m.softmax(seq(|sel|, i requires 0 <= i < |sel| => ScoreAt(m, layer, pos, h, x, keys, sel[i])))
  }

  /** The weighted sum over the first n selected positions. */
  function Mixed(m: Model, weights: seq<Float>, sel: seq<nat>, values: seq<Vec>, n: nat): Vec
    requires n <= |sel| <= |weights|
  {
    if n == 0 then Zero(m.shape.vDim)
    else
      var acc := Mixed(m, weights, sel, values, n - 1);
      if sel[n - 1] >= |values| then acc else m.accumulate(acc, weights[n - 1], values[sel[n - 1]])
  }

  ghost function HeadOut(m: Model, layer: nat, pos: nat, h: nat, x: Vec, sel: seq<nat>, keys: seq<Vec>,
                         values: seq<Vec>): Vec
    requires Sound(m)
  {
    Mixed(m, Weights(m, layer, pos, h, x, sel, keys), sel, values, |sel|)
  }

  /** Attention of all heads over their histories. */
  ghost function Attend(m: Model, layer: nat, pos: nat, x: Vec, sel: seq<nat>, keys: seq<seq<Vec>>,
                        values: seq<seq<Vec>>): seq<Vec>
    requires Sound(m) && |keys| == |values|
  {
    seq(|keys|, h requires 0 <= h < |keys| => HeadOut(m, layer, pos, h, x, sel, keys[h], values[h]))
  }

  /** The token's key and value, and on an indexer layer its indexer key, are cached. */
  ghost function Cached(m: Model, v: View, layer: nat, pos: nat, x: Vec): (w: View)
    requires Sound(m) && v.shape == m.shape
    ensures w.shape == v.shape
  {
    var c := Append(Append(v, Key, layer, pos, m.keyOf(layer, pos, x)), Value, layer, pos, m.valueOf(layer, pos, x));
    if m.dsa(layer) then Append(c, Indexer, layer, pos, m.indexKeyOf(layer, pos, x)) else c
  }

  lemma CachedFull(m: Model, v: View, layer: nat, pos: nat, x: Vec)
    requires Sound(m) && v.shape == m.shape && Full(v) && layer < m.shape.numLayers
    ensures Full(Cached(m, v, layer, pos, x)) && Cached(m, v, layer, pos, x).cap == GrownCapacity(v.cap, pos + 1)
    ensures Cached(m, v, layer, pos, x).seqLen == v.seqLen
  {
    hide Full, Grown;
    var k, u, i := m.keyOf(layer, pos, x), m.valueOf(layer, pos, x), m.indexKeyOf(layer, pos, x);
    AppendFull(v, Key, layer, pos, k);
    AppendCap(v, Key, layer, pos, k);
    var a := Append(v, Key, layer, pos, k);
    AppendFull(a, Value, layer, pos, u);
    AppendCap(a, Value, layer, pos, u);
    var b := Append(a, Value, layer, pos, u);
    AppendFull(b, Indexer, layer, pos, i);
    AppendCap(b, Indexer, layer, pos, i);
  }

  lemma AppendCap(v: View, kind: Kind, layer: nat, pos: nat, data: Vec)
    requires DataFits(v.shape, kind, data) && layer < v.shape.numLayers
    ensures Append(v, kind, layer, pos, data).cap == GrownCapacity(v.cap, pos + 1)
    ensures Append(v, kind, layer, pos, data).shape == v.shape && Append(v, kind, layer, pos, data).seqLen == v.seqLen
  {
  }

  /** What a token carries through the layers. */
  datatype Carry = Carry(cache: View, hidden: Vec, sel: seq<nat>, picks: seq<seq<nat>>)

  /** After caching there is room for the token, and as many value rows as key rows. */
  lemma LayerReady(m: Model, v: View, layer: nat, pos: nat, x: Vec)
    requires Sound(m) && v.shape == m.shape && Full(v) && layer < m.shape.numLayers
    ensures var w := Cached(m, v, layer, pos, x);
      && Full(w) && w.shape == m.shape && w.seqLen == v.seqLen && w.cap == GrownCapacity(v.cap, pos + 1) >= pos + 1
      && |Histories(w, Key, layer, pos + 1)| == |Histories(w, Value, layer, pos + 1)|
  {
    CachedFull(m, v, layer, pos, x);
    hide Full, Grown, History, Sound;
  }

  /** One layer: cache the token, select positions, attend, finish with the MLP. */
  ghost function LayerStep(m: Model, c: Carry, layer: nat, pos: nat): (r: Carry)
    requires Sound(m) && c.cache.shape == m.shape && Full(c.cache) && layer < m.shape.numLayers
    ensures r.cache.shape == m.shape && Full(r.cache) && r.cache.cap == GrownCapacity(c.cache.cap, pos + 1)
    ensures r.cache.seqLen == c.cache.seqLen
  {
    var x := m.norm(layer, c.hidden);
    LayerReady(m, c.cache, layer, pos, x);
    var v := Cached(m, c.cache, layer, pos, x);
    var sel := Pick(m, layer, pos, x, c.sel, if m.dsa(layer) then History(v, Indexer, layer, 0, pos + 1) else []);
    var out := Attend(m, layer, pos, x, sel, Histories(v, Key, layer, pos + 1), Histories(v, Value, layer, pos + 1));
    Carry(v, m.finish(layer, c.hidden, out), sel, c.picks + [sel])
  }

  /** The first n layers of the token at pos. */
  ghost function Layers(m: Model, c: Carry, pos: nat, n: nat): (r: Carry)
    requires Sound(m) && c.cache.shape == m.shape && Full(c.cache) && n <= m.shape.numLayers && pos < c.cache.cap
    ensures r.cache.shape == m.shape && Full(r.cache) && r.cache.cap == c.cache.cap && r.cache.seqLen == c.cache.seqLen
  {
    if n == 0 then c else LayerStep(m, Layers(m, c, pos, n - 1), n - 1, pos)
  }

  // ---------------------------------------------------------------- the token loop

  /** The engine: its cache, its own token count, the selections of the last
      token and the hidden state it left in the workspace. */
  datatype Engine = Engine(cache: View, seqLen: nat, lastTopk: seq<seq<nat>>, hidden: Vec)

  ghost predicate Ready(m: Model, e: Engine) {
    Sound(m) && e.cache.shape == m.shape && Full(e.cache)
  }

  lemma AdvanceFull(v: View)
    requires Full(v)
    ensures Full(Advance(v)) && Advance(v).cap == v.cap && Advance(v).shape == v.shape
  {
  }

  /** One token: all layers, then both counters move. */
  ghost function TokenStep(m: Model, e: Engine, id: int): (r: Engine)
    requires Ready(m, e) && e.seqLen < e.cache.cap
    ensures Ready(m, r) && r.cache.cap == e.cache.cap && r.seqLen == e.seqLen + 1
    ensures r.cache.seqLen == (if e.cache.seqLen < e.cache.cap then e.cache.seqLen + 1 else e.cache.seqLen)
  {
    hide Full, Sound;
    var c := Layers(m, Carry(e.cache, m.embed(id), [], []), e.seqLen, m.shape.numLayers);
    AdvanceFull(c.cache);
    Engine(Advance(c.cache), e.seqLen + 1, c.picks, c.hidden)
  }

  /** Tokens up to position to. */
  ghost function Feed(m: Model, e: Engine, ids: seq<int>, to: nat): (r: Engine)
    requires Ready(m, e) && to <= |ids| && to <= e.cache.cap
    ensures Ready(m, r) && r.cache.cap == e.cache.cap && r.seqLen == (if e.seqLen < to then to else e.seqLen)
    decreases if to > e.seqLen then to - e.seqLen else 0
  {
    if e.seqLen >= to then e else Feed(m, TokenStep(m, e, ids[e.seqLen]), ids, to)
  }

  ghost function Prepared(e: Engine, n: nat): (r: Engine)
    requires Full(e.cache)
    ensures Full(r.cache) && r.cache.shape == e.cache.shape && r.cache.cap == GrownCapacity(e.cache.cap, n + 16)
  {
    GrownFull(e.cache, n + 16);
    e.(cache := Reserve(e.cache, n + 16))
  }

  /** forward: reserve for the whole horizon, feed what is new, sample after the
      last token; -1 when there was nothing new. */
  ghost function Forward(m: Model, e: Engine, ids: seq<int>): (Engine, int)
    requires Ready(m, e)
  {
    var r := Feed(m, Prepared(e, |ids|), ids, |ids|);
    (r, if e.seqLen < |ids| then m.sample(r.hidden) else -1)
  }

  function Reset(e: Engine): Engine {
    e.(cache := Clear(e.cache), seqLen := 0)
  }
}
