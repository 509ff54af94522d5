/** The forward engine against the plain transformer it stands for: without a
    cache and without counters, every position's state computed from the tokens
    alone. The cache holds exactly what the plain computation would recompute. */
module ForwardReference {
  import opened KvModel
  import opened ForwardModel
  import opened ForwardRuns

  // ---------------------------------------------------------------- the plain transformer

  /** What a position carries into a layer: its hidden state and the selection handed down. */
  datatype Stage = Stage(hidden: Vec, sel: seq<nat>)

  /** One layer at position t, given the vectors of the positions up to t. */
  ghost function PlainLayer(m: Model, layer: nat, t: nat, c: Stage, indexKeys: seq<Vec>,
                            keys: seq<seq<Vec>>, values: seq<seq<Vec>>): Stage
    requires Sound(m) && |keys| == |values|
  {
    var x := m.norm(layer, c.hidden);
    var sel := Pick(m, layer, t, x, c.sel, indexKeys);
    Stage(m.finish(layer, c.hidden, Attend(m, layer, t, x, sel, keys, values)), sel)
  }

  /** The token at t of ids after n layers. */
  ghost function Plain(m: Model, ids: seq<int>, t: nat, n: nat): Stage
    requires Sound(m) && t < |ids| && n <= m.shape.numLayers
    decreases n, 0
  {
    if n == 0 then Stage(m.embed(ids[t]), [])
    else
      var l := n - 1;
      PlainLayer(m, l, t, Plain(m, ids, t, l),
                 if m.dsa(l) then PlainHistory(m, ids, Indexer, l, 0, t + 1) else [],
                 PlainHistories(m, ids, Key, l, t + 1), PlainHistories(m, ids, Value, l, t + 1))
  }

  /** The vector of one place: what the layer derives from the normed state that
      the token at this position brings to it, cut to the place's head. */
  ghost function PlainCell(m: Model, ids: seq<int>, p: Place): Vec
    requires Sound(m) && p.pos < |ids| && p.layer < m.shape.numLayers && p.head < Heads(m.shape, p.kind)
    decreases p.layer, 1
  {
    PartFor(m.shape, NewData(m, p.kind, p.layer, p.pos, m.norm(p.layer, Plain(m, ids, p.pos, p.layer).hidden)), p)
  }

  ghost function PlainHistory(m: Model, ids: seq<int>, kind: Kind, layer: nat, head: nat, n: nat): seq<Vec>
    requires Sound(m) && n <= |ids| && layer < m.shape.numLayers && head < Heads(m.shape, kind)
    decreases layer, 2
  {
    seq(n, t requires 0 <= t < n => PlainCell(m, ids, Place(kind, layer, head, t)))
  }

  ghost function PlainHistories(m: Model, ids: seq<int>, kind: Kind, layer: nat, n: nat): (r: seq<seq<Vec>>)
    requires Sound(m) && n <= |ids| && layer < m.shape.numLayers
    ensures |r| == Heads(m.shape, kind)
    decreases layer, 3
  {
    seq(Heads(m.shape, kind), h requires 0 <= h < Heads(m.shape, kind) => PlainHistory(m, ids, kind, layer, h, n))
  }

  // ---------------------------------------------------------------- the cache holds the plain vectors

  /** Every cell written before layer `layer` of the token at pos is the plain one. */
  ghost predicate Memoised(m: Model, ids: seq<int>, v: View, pos: nat, layer: nat) {
    && Sound(m) && v.shape == m.shape && Full(v)
    && forall p :: p in v.cells && p.pos < |ids| && Relevant(m, p) && Before(p, pos, layer) ==>
         IsPlain(m, ids, v, p)
  }

  ghost predicate IsPlain(m: Model, ids: seq<int>, v: View, p: Place)
    requires Sound(m) && v.shape == m.shape && Full(v) && p in v.cells && p.pos < |ids|
  {
    FullAt(v, p);
    v.cells[p] == PlainCell(m, ids, p)
  }

  lemma CachedMemoised(m: Model, ids: seq<int>, v: View, layer: nat, pos: nat)
    requires Memoised(m, ids, v, pos, layer) && layer < m.shape.numLayers && pos < v.cap && pos < |ids|
    ensures Memoised(m, ids, Cached(m, v, layer, pos, m.norm(layer, Plain(m, ids, pos, layer).hidden)), pos, layer + 1)
  {
    hide Cached, Full, Sound, PartFor, Plain;
    var x := m.norm(layer, Plain(m, ids, pos, layer).hidden);
    CachedFull(m, v, layer, pos, x);
    var w := Cached(m, v, layer, pos, x);
    forall p | p in w.cells && p.pos < |ids| && Relevant(m, p) && Before(p, pos, layer + 1)
      ensures IsPlain(m, ids, w, p)
    {
      CachedCell(m, v, layer, pos, x, p);
    }
  }

  lemma HistoryMemoised(m: Model, ids: seq<int>, v: View, kind: Kind, layer: nat, head: nat, pos: nat)
    requires Memoised(m, ids, v, pos, layer + 1) && layer < m.shape.numLayers && head < Heads(m.shape, kind)
    requires pos < v.cap && pos < |ids| && (kind.Indexer? ==> m.dsa(layer))
    ensures History(v, kind, layer, head, pos + 1) == PlainHistory(m, ids, kind, layer, head, pos + 1)
  {
    hide PlainCell, Heads;
    forall t: nat | t <= pos
      ensures Place(kind, layer, head, t) in v.cells && IsPlain(m, ids, v, Place(kind, layer, head, t))
    {
      FullAt(v, Place(kind, layer, head, t));
      assert Before(Place(kind, layer, head, t), pos, layer + 1) && Relevant(m, Place(kind, layer, head, t));
    }
  }

  lemma HistoriesMemoised(m: Model, ids: seq<int>, v: View, kind: Kind, layer: nat, pos: nat)
    requires Memoised(m, ids, v, pos, layer + 1) && layer < m.shape.numLayers
    requires pos < v.cap && pos < |ids| && !kind.Indexer?
    ensures Histories(v, kind, layer, pos + 1) == PlainHistories(m, ids, kind, layer, pos + 1)
  {
    hide History, PlainHistory, IsPlain;
    var n := pos + 1;
    forall h: nat | h < Heads(m.shape, kind)
      ensures History(v, kind, layer, h, n) == PlainHistory(m, ids, kind, layer, h, n)
    {
      HistoryMemoised(m, ids, v, kind, layer, h, pos);
    }
  }

  /** The carry of the token at pos before layer n is the plain one. */
  ghost predicate Carries(m: Model, ids: seq<int>, c: Carry, pos: nat, n: nat) {
    && Memoised(m, ids, c.cache, pos, n) && pos < c.cache.cap && pos < |ids| && n <= m.shape.numLayers
    && Stage(c.hidden, c.sel) == Plain(m, ids, pos, n)
    && |c.picks| == n && forall l :: 0 <= l < n ==> c.picks[l] == Plain(m, ids, pos, l + 1).sel
  }

  lemma LayerCarries(m: Model, ids: seq<int>, c: Carry, layer: nat, pos: nat)
    requires Carries(m, ids, c, pos, layer) && layer < m.shape.numLayers
    ensures c.cache.shape == m.shape && Full(c.cache) && Sound(m)
    ensures Carries(m, ids, LayerStep(m, c, layer, pos), pos, layer + 1)
  {
    var d := LayerStep(m, c, layer, pos);
    LayerIsPlain(m, ids, c, layer, pos);
    hide LayerStep, Plain, Memoised, Full;
    forall l | 0 <= l < layer + 1 ensures d.picks[l] == Plain(m, ids, pos, l + 1).sel {
      if l < layer { assert d.picks[l] == c.picks[l]; }
    }
  }

  lemma LayerIsPlain(m: Model, ids: seq<int>, c: Carry, layer: nat, pos: nat)
    requires Memoised(m, ids, c.cache, pos, layer) && pos < c.cache.cap && pos < |ids| && layer < m.shape.numLayers
    requires Stage(c.hidden, c.sel) == Plain(m, ids, pos, layer)
    ensures var d := LayerStep(m, c, layer, pos);
      && Memoised(m, ids, d.cache, pos, layer + 1) && pos < d.cache.cap
      && Stage(d.hidden, d.sel) == Plain(m, ids, pos, layer + 1)
      && d.picks == c.picks + [d.sel]
  {
    hide Cached, Pick, Attend, History, Histories, PlainHistory, PlainHistories, IsPlain, Before, Relevant;
    var x := m.norm(layer, c.hidden);
    LayerReady(m, c.cache, layer, pos, x);
    CachedMemoised(m, ids, c.cache, layer, pos);
    var v := Cached(m, c.cache, layer, pos, x);
    hide Sound, Full;
    if m.dsa(layer) { HistoryMemoised(m, ids, v, Indexer, layer, 0, pos); }
    HistoriesMemoised(m, ids, v, Key, layer, pos);
    HistoriesMemoised(m, ids, v, Value, layer, pos);
  }

  lemma {:induction false} LayersCarry(m: Model, ids: seq<int>, c: Carry, pos: nat, n: nat)
    requires Sound(m) && c.cache.shape == m.shape && Full(c.cache) && pos < c.cache.cap && n <= m.shape.numLayers
    requires Carries(m, ids, c, pos, 0)
    ensures Carries(m, ids, Layers(m, c, pos, n), pos, n)
  {
    hide Carries, LayerStep, Full, Sound;
    if n > 0 {
      LayersCarry(m, ids, c, pos, n - 1);
      LayerCarries(m, ids, Layers(m, c, pos, n - 1), n - 1, pos);
    }
  }

  /** The engine has heard the first seqLen tokens of ids, and its cache holds
      their plain vectors. */
  ghost predicate Heard(m: Model, e: Engine, ids: seq<int>) {
    e.seqLen <= |ids| && e.seqLen <= e.cache.cap && Memoised(m, ids, e.cache, e.seqLen, 0)
  }

  /** The engine has just computed the last token of ids as the plain transformer does. */
  ghost predicate Computed(m: Model, e: Engine, ids: seq<int>, t: nat) {
    && Sound(m) && t < |ids|
    && e.hidden == Plain(m, ids, t, m.shape.numLayers).hidden
    && |e.lastTopk| == m.shape.numLayers
    && forall l :: 0 <= l < m.shape.numLayers ==> e.lastTopk[l] == Plain(m, ids, t, l + 1).sel
  }

  lemma StartsPlain(m: Model, e: Engine, ids: seq<int>)
    requires Heard(m, e, ids) && e.seqLen < |ids| && e.seqLen < e.cache.cap
    ensures Carries(m, ids, Carry(e.cache, m.embed(ids[e.seqLen]), [], []), e.seqLen, 0)
  {
    hide Memoised;
  }

  lemma TokenHeard(m: Model, e: Engine, ids: seq<int>)
    requires Ready(m, e) && Heard(m, e, ids) && e.seqLen < |ids| && e.seqLen < e.cache.cap
    ensures Heard(m, TokenStep(m, e, ids[e.seqLen]), ids)
    ensures Computed(m, TokenStep(m, e, ids[e.seqLen]), ids, e.seqLen)
  {
    hide Sound, Full, Plain, Carries, Memoised, Layers, Computed;
    var t, n := e.seqLen, m.shape.numLayers;
    var c := Carry(e.cache, m.embed(ids[t]), [], []);
    StartsPlain(m, e, ids);
    LayersCarry(m, ids, c, t, n);
    CarriedAll(m, ids, Layers(m, c, t, n), t);
    AllMemoised(m, ids, Layers(m, c, t, n).cache, t);
  }

  lemma CarriedAll(m: Model, ids: seq<int>, c: Carry, pos: nat)
    requires Carries(m, ids, c, pos, m.shape.numLayers)
    ensures Memoised(m, ids, c.cache, pos, m.shape.numLayers)
    ensures Computed(m, Engine(Advance(c.cache), pos + 1, c.picks, c.hidden), ids, pos)
  {
    hide Plain, IsPlain;
  }

  lemma AllMemoised(m: Model, ids: seq<int>, v: View, pos: nat)
    requires Memoised(m, ids, v, pos, m.shape.numLayers)
    ensures Memoised(m, ids, Advance(v), pos + 1, 0)
  {
    hide Relevant, PlainCell;
    AdvanceFull(v);
    forall p | p in v.cells && p.pos < |ids| && Relevant(m, p) && Before(p, pos + 1, 0)
      ensures IsPlain(m, ids, Advance(v), p)
    {
      assert Before(p, pos, m.shape.numLayers);
      assert IsPlain(m, ids, v, p);
    }
  }

  lemma {:induction false} FeedHeard(m: Model, e: Engine, ids: seq<int>)
    requires Heard(m, e, ids) && |ids| <= e.cache.cap
    ensures Ready(m, e) && Heard(m, Feed(m, e, ids, |ids|), ids)
    ensures e.seqLen < |ids| ==> Computed(m, Feed(m, e, ids, |ids|), ids, |ids| - 1)
    decreases |ids| - e.seqLen
  {
    hide TokenStep, Memoised, Computed, Full, Sound;
    assert Ready(m, e) by { HeardReady(m, e, ids); }
    if e.seqLen < |ids| {
      TokenHeard(m, e, ids);
      FeedHeard(m, TokenStep(m, e, ids[e.seqLen]), ids);
    }
  }

  lemma HeardReady(m: Model, e: Engine, ids: seq<int>)
    requires Heard(m, e, ids)
    ensures Ready(m, e)
  {
  }

  lemma PreparedHeard(m: Model, e: Engine, ids: seq<int>, n: nat)
    requires Heard(m, e, ids)
    ensures Ready(m, e) && Heard(m, Prepared(e, n), ids)
  {
    hide Relevant, PlainCell, GrownCapacity, Zero;
    GrownFull(e.cache, n + 16);
    var w := Prepared(e, n).cache;
    forall p | p in w.cells && p.pos < |ids| && Relevant(m, p) && Before(p, e.seqLen, 0) ensures IsPlain(m, ids, w, p) {
      if e.cache.cap < n + 16 {
        assert p in e.cache.cells;
      }
      assert IsPlain(m, ids, e.cache, p);
    }
  }

  /** The cell of p holds its head's floats of what its layer derives from the
      plain state of the token at its position. */
  ghost predicate HoldsPlain(m: Model, ids: seq<int>, v: View, p: Place)
    requires Sound(m) && v.shape == m.shape && Full(v) && p in v.cells && p.pos < |ids|
  {
    FullAt(v, p);
    var x := m.norm(p.layer, Plain(m, ids, p.pos, p.layer).hidden);
    IsPart(v.cells[p], NewData(m, p.kind, p.layer, p.pos, x), Dim(m.shape, p.kind), p.head)
  }

  /** One call computes what the plain transformer computes: the sampled token is
      that of the last position, the selections are its selections, and every cell
      of the tokens so far holds its own head's part of the plain vectors. */
  lemma ForwardIsPlain(m: Model, e: Engine, ids: seq<int>)
    requires Ready(m, e) && Heard(m, e, ids)
    ensures var (r, token) := Forward(m, e, ids);
      && Ready(m, r) && r.seqLen == |ids| && Heard(m, r, ids)
      && (e.seqLen < |ids| ==>
            && Computed(m, r, ids, |ids| - 1)
            && token == m.sample(Plain(m, ids, |ids| - 1, m.shape.numLayers).hidden))
      && forall p :: p in r.cache.cells && p.pos < |ids| && Relevant(m, p) ==> HoldsPlain(m, ids, r.cache, p)
  {
    hide Sound, Full, Feed, Reserve, Computed, Plain, Relevant;
    PreparedHeard(m, e, ids, |ids|);
    FeedHeard(m, Prepared(e, |ids|), ids);
    var r := Forward(m, e, ids).0;
    if e.seqLen < |ids| { ComputedHidden(m, r, ids, |ids| - 1); }
    forall p | p in r.cache.cells && p.pos < |ids| && Relevant(m, p) ensures HoldsPlain(m, ids, r.cache, p) {
      HeardCell(m, r, ids, p);
    }
  }

  lemma ComputedHidden(m: Model, e: Engine, ids: seq<int>, t: nat)
    requires Computed(m, e, ids, t)
    ensures Sound(m) && t < |ids| && e.hidden == Plain(m, ids, t, m.shape.numLayers).hidden
  {
    hide Plain, Sound;
  }

  lemma HeardCell(m: Model, e: Engine, ids: seq<int>, p: Place)
    requires Heard(m, e, ids) && e.seqLen == |ids| && p in e.cache.cells && p.pos < |ids| && Relevant(m, p)
    ensures Ready(m, e) && HoldsPlain(m, ids, e.cache, p)
  {
    hide Plain, Relevant, IsPart;
    assert IsPlain(m, ids, e.cache, p);
  }

  // ---------------------------------------------------------------- conversations

  /** The inputs agree up to position t. */
  ghost predicate SameUpTo(a: seq<int>, b: seq<int>, t: nat) {
    t < |a| && t < |b| && a[..t + 1] == b[..t + 1]
  }

  lemma SameBefore(a: seq<int>, b: seq<int>, t: nat, u: nat)
    requires SameUpTo(a, b, t) && u <= t
    ensures SameUpTo(a, b, u) && a[u] == b[u]
  {
    assert a[..t + 1][..u + 1] == a[..u + 1] && b[..t + 1][..u + 1] == b[..u + 1];
    assert a[..t + 1][u] == a[u] && b[..t + 1][u] == b[u];
  }

  lemma IndexerHead(shape: Shape)
    ensures Heads(shape, Indexer) == 1
  {
  }

  lemma CausalStart(m: Model, a: seq<int>, b: seq<int>, t: nat)
    requires Sound(m) && SameUpTo(a, b, t)
    ensures Plain(m, a, t, 0) == Plain(m, b, t, 0)
  {
    SameBefore(a, b, t, t);
  }

  lemma CausalStep(m: Model, a: seq<int>, b: seq<int>, t: nat, l: nat)
    requires Sound(m) && t < |a| && t < |b| && l < m.shape.numLayers && Plain(m, a, t, l) == Plain(m, b, t, l)
    requires m.dsa(l) ==> PlainHistory(m, a, Indexer, l, 0, t + 1) == PlainHistory(m, b, Indexer, l, 0, t + 1)
    requires PlainHistories(m, a, Key, l, t + 1) == PlainHistories(m, b, Key, l, t + 1)
    requires PlainHistories(m, a, Value, l, t + 1) == PlainHistories(m, b, Value, l, t + 1)
    ensures Plain(m, a, t, l + 1) == Plain(m, b, t, l + 1)
  {
    hide Sound, PlainLayer, PlainHistory, PlainHistories;
  }

  /** The plain transformer is causal: a token's state depends on what precedes it alone. */
  lemma {:induction false} Causal(m: Model, a: seq<int>, b: seq<int>, t: nat, n: nat)
    requires Sound(m) && t < |a| && t < |b| && SameUpTo(a, b, t) && n <= m.shape.numLayers
    ensures Plain(m, a, t, n) == Plain(m, b, t, n)
    decreases n
  {
    hide Sound, Plain, PlainLayer, PlainCell, PlainHistory, PlainHistories, SameUpTo, Heads;
    if n == 0 {
      CausalStart(m, a, b, t);
    } else {
      var l: nat := n - 1;
      Causal(m, a, b, t, l);
      IndexerHead(m.shape);
      CausalHistory(m, a, b, Indexer, l, 0, t);
      CausalHistories(m, a, b, Key, l, t);
      CausalHistories(m, a, b, Value, l, t);
      CausalStep(m, a, b, t, l);
    }
  }

  lemma {:induction false} CausalHistory(m: Model, a: seq<int>, b: seq<int>, kind: Kind, layer: nat, head: nat, t: nat)
    requires Sound(m) && t < |a| && t < |b| && SameUpTo(a, b, t)
    requires layer < m.shape.numLayers && head < Heads(m.shape, kind)
    ensures PlainHistory(m, a, kind, layer, head, t + 1) == PlainHistory(m, b, kind, layer, head, t + 1)
    decreases layer + 1, 0
  {
    hide Plain, Sound, PartFor;
    forall u: nat | u <= t
      ensures PlainCell(m, a, Place(kind, layer, head, u)) == PlainCell(m, b, Place(kind, layer, head, u))
    {
      SameBefore(a, b, t, u);
      Causal(m, a, b, u, layer);
    }
  }

  lemma {:induction false} CausalHistories(m: Model, a: seq<int>, b: seq<int>, kind: Kind, layer: nat, t: nat)
    requires Sound(m) && t < |a| && t < |b| && SameUpTo(a, b, t) && layer < m.shape.numLayers
    ensures PlainHistories(m, a, kind, layer, t + 1) == PlainHistories(m, b, kind, layer, t + 1)
    decreases layer + 1, 1
  {
    hide PlainHistory, Sound;
    var n := t + 1;
    forall h: nat | h < Heads(m.shape, kind)
      ensures PlainHistory(m, a, kind, layer, h, n) == PlainHistory(m, b, kind, layer, h, n)
    {
      CausalHistory(m, a, b, kind, layer, h, t);
    }
  }

  /** What has been heard of an input has been heard of every longer one. */
  lemma HeardExtends(m: Model, e: Engine, ids: seq<int>, longer: seq<int>)
    requires Heard(m, e, ids) && ids <= longer
    ensures Heard(m, e, longer)
  {
    hide Plain, Relevant, Sound, Full, PartFor;
    forall p | p in e.cache.cells && p.pos < |longer| && Relevant(m, p) && Before(p, e.seqLen, 0)
      ensures IsPlain(m, longer, e.cache, p)
    {
      assert IsPlain(m, ids, e.cache, p);
      FullAt(e.cache, p);
      assert SameUpTo(ids, longer, p.pos);
      Causal(m, ids, longer, p.pos, p.layer);
    }
  }

  /** Each call's input extends the one before. */
  ghost predicate Growing(calls: seq<seq<int>>) {
    forall i :: 0 < i < |calls| ==> calls[i - 1] <= calls[i]
  }

  /** What the plain transformer answers to ids after heard tokens of it. */
  ghost function PlainAnswer(m: Model, ids: seq<int>, heard: nat): int
    requires Sound(m)
  {
    if heard < |ids| then m.sample(Plain(m, ids, |ids| - 1, m.shape.numLayers).hidden) else -1
  }

  /** How much had been heard before call i. */
  function HeardBefore(calls: seq<seq<int>>, heard: nat, i: nat): nat
    requires i < |calls|
  {
    if i == 0 then heard else |calls[i - 1]|
  }

  ghost predicate AnswersPlainly(m: Model, calls: seq<seq<int>>, heard: nat, answers: seq<int>)
    requires Sound(m)
  {
    && |answers| == |calls|
    && forall i :: 0 <= i < |calls| ==> answers[i] == PlainAnswer(m, calls[i], HeardBefore(calls, heard, i))
  }

  lemma AnswersFollow(m: Model, calls: seq<seq<int>>, heard: nat, answers: seq<int>)
    requires Sound(m) && calls != [] && |answers| == |calls|
    requires answers[0] == PlainAnswer(m, calls[0], heard)
    requires AnswersPlainly(m, calls[1..], |calls[0]|, answers[1..])
    ensures AnswersPlainly(m, calls, heard, answers)
  {
    hide PlainAnswer;
    forall i | 0 <= i < |calls| ensures answers[i] == PlainAnswer(m, calls[i], HeardBefore(calls, heard, i)) {
      if i > 0 {
        assert answers[i] == answers[1..][i - 1];
        assert HeardBefore(calls, heard, i) == HeardBefore(calls[1..], |calls[0]|, i - 1);
      }
    }
  }

  lemma {:induction false} TalkIsPlain(m: Model, e: Engine, calls: seq<seq<int>>)
    requires Ready(m, e) && Growing(calls) && (calls != [] ==> Heard(m, e, calls[0]))
    ensures Sound(m) && AnswersPlainly(m, calls, e.seqLen, Talk(m, e, calls))
    decreases |calls|
  {
    hide Heard, Forward, Full, Sound, Plain, HoldsPlain, Computed, AnswersPlainly, Relevant;
    assert calls == [] ==> AnswersPlainly(m, calls, e.seqLen, []) by { NoAnswers(m, e.seqLen); }
    if calls != [] {
      var r := Forward(m, e, calls[0]).0;
      ForwardAnswers(m, e, calls[0]);
      if |calls| > 1 {
        assert calls[0] <= calls[1];
        HeardExtends(m, r, calls[0], calls[1]);
      }
      TalkIsPlain(m, r, calls[1..]);
      assert Talk(m, e, calls) == [Forward(m, e, calls[0]).1] + Talk(m, r, calls[1..]);
      AnswersCount(m, calls[1..], |calls[0]|, Talk(m, r, calls[1..]));
      AnswersFollow(m, calls, e.seqLen, Talk(m, e, calls));
    }
  }

  lemma AnswersCount(m: Model, calls: seq<seq<int>>, heard: nat, answers: seq<int>)
    requires Sound(m) && AnswersPlainly(m, calls, heard, answers)
    ensures |answers| == |calls|
  {
  }

  lemma NoAnswers(m: Model, heard: nat)
    requires Sound(m)
    ensures AnswersPlainly(m, [], heard, [])
  {
    hide Sound;
  }

  lemma ForwardAnswers(m: Model, e: Engine, ids: seq<int>)
    requires Ready(m, e) && Heard(m, e, ids)
    ensures var (r, token) := Forward(m, e, ids);
      Ready(m, r) && Heard(m, r, ids) && r.seqLen == |ids| && token == PlainAnswer(m, ids, e.seqLen)
  {
    ForwardIsPlain(m, e, ids);
    hide Heard, Full, Sound, Plain, HoldsPlain, Computed, Feed, Prepared;
  }

  /** A conversation after a reset, whatever the cache held before and however it
      was sized: each call that brings new tokens returns the token the plain
      transformer samples after the whole input, and each other call -1. */
  lemma ConversationIsPlain(m: Model, e: Engine, calls: seq<seq<int>>)
    requires Ready(m, e) && Growing(calls)
    ensures AnswersPlainly(m, calls, 0, Talk(m, Reset(e), calls))
  {
    hide Plain, Talk, AnswersPlainly, Relevant, Growing;
    TalkIsPlain(m, Reset(e), calls);
  }

  // ---------------------------------------------------------------- each token at its own position

  /** The cell of p holds its head's floats of what the first layer derives from
      the embedding of the token of ids at p's position. */
  ghost predicate HoldsEmbedded(m: Model, ids: seq<int>, v: View, p: Place)
    requires Sound(m) && p in v.cells && p.pos < |ids|
  {
    var x := m.norm(0, m.embed(ids[p.pos]));
    IsPart(v.cells[p], NewData(m, p.kind, 0, p.pos, x), Dim(m.shape, p.kind), p.head)
  }

  /** The first layer's cells at the positions from..to are those of the tokens there. */
  ghost predicate FirstLayer(m: Model, ids: seq<int>, v: View, from: nat, to: nat) {
    && Sound(m) && v.shape == m.shape && Full(v) && to <= |ids| && to <= v.cap
    && forall p :: Within(m.shape, v.cap, p) && p.layer == 0 && from <= p.pos < to && Relevant(m, p) ==>
         p in v.cells && HoldsEmbedded(m, ids, v, p)
  }

  /** A layer touches no cell but its own at the token's position. */
  lemma LayerKeeps(m: Model, c: Carry, layer: nat, pos: nat, p: Place)
    requires Sound(m) && c.cache.shape == m.shape && Full(c.cache) && layer < m.shape.numLayers && pos < c.cache.cap
    requires p in c.cache.cells
    ensures p in LayerStep(m, c, layer, pos).cache.cells
    ensures p.layer != layer || p.pos != pos ==> LayerStep(m, c, layer, pos).cache.cells[p] == c.cache.cells[p]
    ensures p.layer == layer && p.pos == pos && Relevant(m, p) ==>
      IsPart(LayerStep(m, c, layer, pos).cache.cells[p],
             NewData(m, p.kind, layer, pos, m.norm(layer, c.hidden)), Dim(m.shape, p.kind), p.head)
  {
    hide Full, Sound, Cached, Pick, Attend, History, Histories, IsPart;
    FullAt(c.cache, p);
    CachedCell(m, c.cache, layer, pos, m.norm(layer, c.hidden), p);
  }

  lemma {:induction false} LayersKeep(m: Model, c: Carry, pos: nat, n: nat, p: Place)
    requires Sound(m) && c.cache.shape == m.shape && Full(c.cache) && n <= m.shape.numLayers && pos < c.cache.cap
    requires p in c.cache.cells
    ensures p in Layers(m, c, pos, n).cache.cells
    ensures p.pos != pos ==> Layers(m, c, pos, n).cache.cells[p] == c.cache.cells[p]
    ensures n > 0 && p.layer == 0 && p.pos == pos && Relevant(m, p) ==>
      IsPart(Layers(m, c, pos, n).cache.cells[p],
             NewData(m, p.kind, 0, pos, m.norm(0, c.hidden)), Dim(m.shape, p.kind), p.head)
  {
    hide Full, Sound, LayerStep, IsPart, Relevant, NewData;
    if n > 0 {
      LayersKeep(m, c, pos, n - 1, p);
      LayerKeeps(m, Layers(m, c, pos, n - 1), n - 1, pos, p);
    }
  }

  lemma TokenKeeps(m: Model, e: Engine, id: int, p: Place)
    requires Ready(m, e) && e.seqLen < e.cache.cap && p in e.cache.cells
    ensures var v := TokenStep(m, e, id).cache;
      && p in v.cells
      && (p.pos != e.seqLen ==> v.cells[p] == e.cache.cells[p])
      && (p.pos == e.seqLen && p.layer == 0 && Relevant(m, p) ==>
            IsPart(v.cells[p], NewData(m, p.kind, 0, p.pos, m.norm(0, m.embed(id))), Dim(m.shape, p.kind), p.head))
  {
    FullAt(e.cache, p);
    hide Full, Sound, Layers, IsPart, Relevant, NewData;
    LayersKeep(m, Carry(e.cache, m.embed(id), [], []), e.seqLen, m.shape.numLayers, p);
  }

  lemma TokenFirst(m: Model, e: Engine, ids: seq<int>, from: nat, p: Place)
    requires Ready(m, e) && FirstLayer(m, ids, e.cache, from, e.seqLen) && e.seqLen < |ids| && e.seqLen < e.cache.cap
    requires Within(m.shape, e.cache.cap, p) && p.layer == 0 && from <= p.pos <= e.seqLen && Relevant(m, p)
    ensures var v := TokenStep(m, e, ids[e.seqLen]).cache; p in v.cells && HoldsEmbedded(m, ids, v, p)
  {
    FullAt(e.cache, p);
    TokenKeeps(m, e, ids[e.seqLen], p);
    assert p.pos < e.seqLen ==> HoldsEmbedded(m, ids, e.cache, p);
    hide FirstLayer, Full, Sound, TokenStep, IsPart, Relevant, NewData, Within;
  }

  lemma {:induction false} FeedFirst(m: Model, e: Engine, ids: seq<int>, from: nat)
    requires Ready(m, e) && FirstLayer(m, ids, e.cache, from, e.seqLen) && |ids| <= e.cache.cap
    ensures FirstLayer(m, ids, Feed(m, e, ids, |ids|).cache, from, |ids|)
    decreases |ids| - e.seqLen
  {
    hide TokenStep, Full, Sound, HoldsEmbedded, Relevant, Within;
    if e.seqLen < |ids| {
      var r := TokenStep(m, e, ids[e.seqLen]);
      forall p | Within(m.shape, r.cache.cap, p) && p.layer == 0 && from <= p.pos < r.seqLen && Relevant(m, p)
        ensures p in r.cache.cells && HoldsEmbedded(m, ids, r.cache, p)
      {
        TokenFirst(m, e, ids, from, p);
      }
      FeedFirst(m, r, ids, from);
    }
  }

  /** Whatever the engine held, a call puts each new token at its own position:
      there the first layer's cells hold, head by head, what that layer derives
      from the embedding of just that token. */
  lemma EachTokenAtItsPosition(m: Model, e: Engine, ids: seq<int>)
    requires Ready(m, e) && e.seqLen <= |ids|
    ensures FirstLayer(m, ids, Forward(m, e, ids).0.cache, e.seqLen, |ids|)
  {
    hide Feed, Full, Sound, Reserve;
    FeedFirst(m, Prepared(e, |ids|), ids, e.seqLen);
  }

  // ---------------------------------------------------------------- selections

  /** How the position u looks to an indexer layer at position t. */
  ghost function PlainScore(m: Model, ids: seq<int>, layer: nat, t: nat, u: nat): Float
    requires Sound(m) && t < |ids| && u <= t && layer < m.shape.numLayers
  {
    m.indexScore(layer, t, m.norm(layer, Plain(m, ids, t, layer).hidden),
                 PlainCell(m, ids, Place(Indexer, layer, 0, u)))
  }

  lemma PickSelects(m: Model, layer: nat, pos: nat, x: Vec, handed: seq<nat>, keys: seq<Vec>)
    requires Below(handed, pos + 1) && m.dsa(layer) && |keys| == pos + 1 && m.indexTopk > 0
    ensures var sel := Pick(m, layer, pos, x, handed, keys);
      && |sel| == (if m.indexTopk <= pos then m.indexTopk else pos + 1)
      && Below(sel, pos + 1)
      && forall a, b: nat :: a in sel && b <= pos && b !in sel ==>
           a <= pos && Precedes(m.indexScore(layer, pos, x, keys[a]), a, m.indexScore(layer, pos, x, keys[b]), b)
  {
    var scores := seq(|keys|, t requires 0 <= t < |keys| => m.indexScore(layer, pos, x, keys[t]));
    var sel := TopK(scores, m.indexTopk);
    RankingMembers(scores, |scores|);
    assert sel != [] && Pick(m, layer, pos, x, handed, keys) == sel;
    hide TopK, Ranking, Pick;
    forall a, b: nat | a in sel && b <= pos && b !in sel
      ensures a <= pos && Precedes(m.indexScore(layer, pos, x, keys[a]), a, m.indexScore(layer, pos, x, keys[b]), b)
    {
      TopKIsBest(scores, m.indexTopk, a, b);
    }
  }

  /** The higher score comes first, of equal ones the earlier position. */
  predicate Precedes(x: Float, a: nat, y: Float, b: nat) {
    x > y || (x == y && a < b)
  }

  /** An indexer layer attends to the indexTopk best positions so far; any other
      layer to what the layer before it attended to, the first to all. */
  lemma {:induction false} PlainSelection(m: Model, ids: seq<int>, t: nat, layer: nat)
    requires Sound(m) && t < |ids| && layer < m.shape.numLayers
    ensures var sel := Plain(m, ids, t, layer + 1).sel;
      && sel != [] && Below(sel, t + 1)
      && (m.dsa(layer) && m.indexTopk > 0 ==>
            && |sel| == (if m.indexTopk <= t then m.indexTopk else t + 1)
            && forall a, b: nat :: a in sel && b <= t && b !in sel ==>
                 Precedes(PlainScore(m, ids, layer, t, a), a, PlainScore(m, ids, layer, t, b), b))
      && (m.dsa(layer) && m.indexTopk == 0 ==> sel == Everything(t + 1))
      && (!m.dsa(layer) ==> sel == if layer == 0 then Everything(t + 1) else Plain(m, ids, t, layer).sel)
  {
    hide Sound, PlainCell, PlainHistory, Attend, PlainHistories, Below, Pick, TopK;
    var c := Plain(m, ids, t, layer);
    if layer > 0 { PlainSelection(m, ids, t, layer - 1); } else { NothingBelow(t + 1); }
    var x := m.norm(layer, c.hidden);
    var keys := if m.dsa(layer) then PlainHistory(m, ids, Indexer, layer, 0, t + 1) else [];
    assert m.dsa(layer) ==> |keys| == t + 1 by { HistoryCells(m, ids, layer, t); }
    assert Plain(m, ids, t, layer + 1).sel == Pick(m, layer, t, x, c.sel, keys);
    PickInRange(m, layer, t, x, c.sel, keys);
    PickElse(m, layer, t, x, c.sel, keys);
    if m.dsa(layer) && m.indexTopk > 0 {
      hide Precedes, Plain;
      PickSelects(m, layer, t, x, c.sel, keys);
      HistoryCells(m, ids, layer, t);
    }
  }

  lemma NothingBelow(n: nat)
    ensures Below([], n)
  {
  }

  lemma HistoryCells(m: Model, ids: seq<int>, layer: nat, t: nat)
    requires Sound(m) && t < |ids| && layer < m.shape.numLayers
    ensures var keys := PlainHistory(m, ids, Indexer, layer, 0, t + 1);
      && |keys| == t + 1
      && forall u: nat :: u <= t ==> keys[u] == PlainCell(m, ids, Place(Indexer, layer, 0, u))
  {
  }

  lemma PickElse(m: Model, layer: nat, pos: nat, x: Vec, handed: seq<nat>, keys: seq<Vec>)
    ensures m.dsa(layer) && m.indexTopk == 0 ==> Pick(m, layer, pos, x, handed, keys) == Everything(pos + 1)
    ensures !m.dsa(layer) ==>
      Pick(m, layer, pos, x, handed, keys) == if handed == [] then Everything(pos + 1) else handed
  {
  }

  // ---------------------------------------------------------------- attention as a sum

  /** f(i) + f(i + 1) + .. + f(n - 1). */
  ghost function Sum(f: nat -> Float, i: nat, n: nat): Float
    decreases n - i
  {
    if i >= n then 0.0 else f(i) + Sum(f, i + 1, n)
  }

  /** accumulate adds w times each float of v. */
  ghost predicate Additive(m: Model) {
    forall acc: Vec, w: Float, v: Vec :: |acc| == |v| == m.shape.vDim ==> AddsTo(m.accumulate(acc, w, v), acc, w, v)
  }

  ghost predicate AddsTo(r: Vec, acc: Vec, w: Float, v: Vec) {
    |r| == |acc| == |v| && forall d :: 0 <= d < |r| ==> r[d] == acc[d] + w * v[d]
  }

  /** Float d of what selected position i contributes: its own weight times its own value. */
  ghost function Share(weights: seq<Float>, sel: seq<nat>, values: seq<Vec>, d: nat): nat -> Float
    requires |weights| == |sel| && forall t :: 0 <= t < |values| ==> d < |values[t]|
  {
    (i: nat) => if i < |sel| && sel[i] < |values| then weights[i] * values[sel[i]][d] else 0.0
  }

  lemma {:induction false} SumLast(f: nat -> Float, i: nat, n: nat)
    requires i <= n
    ensures Sum(f, i, n + 1) == Sum(f, i, n) + f(n)
    decreases n - i
  {
    if i < n { SumLast(f, i + 1, n); }
  }

  lemma MixedStep(m: Model, weights: seq<Float>, sel: seq<nat>, values: seq<Vec>, n: nat, d: nat)
    requires Additive(m) && 0 < n <= |sel| == |weights| && d < m.shape.vDim
    requires forall t :: 0 <= t < |values| ==> |values[t]| == m.shape.vDim
    requires |Mixed(m, weights, sel, values, n - 1)| == m.shape.vDim
    requires Mixed(m, weights, sel, values, n - 1)[d] == Sum(Share(weights, sel, values, d), 0, n - 1)
    ensures |Mixed(m, weights, sel, values, n)| == m.shape.vDim
    ensures Mixed(m, weights, sel, values, n)[d] == Sum(Share(weights, sel, values, d), 0, n)
  {
    var f := Share(weights, sel, values, d);
    var acc := Mixed(m, weights, sel, values, n - 1);
    SumLast(f, 0, n - 1);
    hide Sum;
    if sel[n - 1] < |values| {
      var w, v := weights[n - 1], values[sel[n - 1]];
      assert |acc| == |v| == m.shape.vDim;
      assert AddsTo(m.accumulate(acc, w, v), acc, w, v);
      assert f(n - 1) == w * v[d];
    } else {
      assert f(n - 1) == 0.0;
    }
  }

  lemma {:induction false} MixedIsSum(m: Model, weights: seq<Float>, sel: seq<nat>, values: seq<Vec>, n: nat, d: nat)
    requires Additive(m) && n <= |sel| == |weights| && d < m.shape.vDim
    requires forall t :: 0 <= t < |values| ==> |values[t]| == m.shape.vDim
    ensures |Mixed(m, weights, sel, values, n)| == m.shape.vDim
    ensures Mixed(m, weights, sel, values, n)[d] == Sum(Share(weights, sel, values, d), 0, n)
  {
    if n > 0 {
      hide Sum, Share, Additive, Mixed;
      MixedIsSum(m, weights, sel, values, n - 1, d);
      MixedStep(m, weights, sel, values, n, d);
    }
  }

  lemma {:induction false} MixedLength(m: Model, weights: seq<Float>, sel: seq<nat>, values: seq<Vec>, n: nat)
    requires Additive(m) && n <= |sel| == |weights|
    requires forall t :: 0 <= t < |values| ==> |values[t]| == m.shape.vDim
    ensures |Mixed(m, weights, sel, values, n)| == m.shape.vDim
  {
    if n > 0 {
      MixedLength(m, weights, sel, values, n - 1);
      var acc := Mixed(m, weights, sel, values, n - 1);
      if sel[n - 1] < |values| {
        var w, v := weights[n - 1], values[sel[n - 1]];
        assert AddsTo(m.accumulate(acc, w, v), acc, w, v);
      }
    }
  }

  /** The scores of the selected positions, each of the key at that position. */
  ghost predicate ScoresOf(scores: seq<Float>, m: Model, layer: nat, pos: nat, h: nat, x: Vec, sel: seq<nat>,
                           keys: seq<Vec>) {
    |scores| == |sel| && forall i :: 0 <= i < |sel| ==>
      scores[i] == if sel[i] < |keys| then m.score(layer, pos, h, x, keys[sel[i]]) else -1e30
  }

  /** A head's output is the sum, over the selected positions, of the position's
      value times the softmax weight of that same position's score. */
  lemma HeadOutIsSum(m: Model, layer: nat, pos: nat, h: nat, x: Vec, sel: seq<nat>, keys: seq<Vec>, values: seq<Vec>)
    requires Sound(m) && Additive(m) && forall t :: 0 <= t < |values| ==> |values[t]| == m.shape.vDim
    ensures exists scores ::
      && ScoresOf(scores, m, layer, pos, h, x, sel, keys)
      && |m.softmax(scores)| == |sel|
      && var out := HeadOut(m, layer, pos, h, x, sel, keys, values);
         |out| == m.shape.vDim
         && forall d :: 0 <= d < |out| ==> out[d] == Sum(Share(m.softmax(scores), sel, values, d), 0, |sel|)
  {
    var scores := seq(|sel|, i requires 0 <= i < |sel| => ScoreAt(m, layer, pos, h, x, keys, sel[i]));
    assert ScoresOf(scores, m, layer, pos, h, x, sel, keys);
    var w := m.softmax(scores);
    assert Weights(m, layer, pos, h, x, sel, keys) == w;
    MixedLength(m, w, sel, values, |sel|);
    forall d: nat | d < m.shape.vDim
      ensures Mixed(m, w, sel, values, |sel|)[d] == Sum(Share(w, sel, values, d), 0, |sel|)
    {
      MixedIsSum(m, w, sel, values, |sel|, d);
    }
  }

  // ---------------------------------------------------------------- one call

  /** What a call of the engine guarantees: each new token at its own position,
      and the plain transformer's answer to a conversation heard from its start. */
  ghost predicate CallIsRight(m: Model, e: Engine, ids: seq<int>, r: Engine, token: int)
    requires Sound(m)
  {
    && (e.seqLen <= |ids| ==> FirstLayer(m, ids, r.cache, e.seqLen, |ids|))
    && (Heard(m, e, ids) ==> Heard(m, r, ids) && token == PlainAnswer(m, ids, e.seqLen))
  }

  lemma ForwardIsRight(m: Model, e: Engine, ids: seq<int>)
    requires Ready(m, e)
    ensures CallIsRight(m, e, ids, Forward(m, e, ids).0, Forward(m, e, ids).1)
  {
    hide Forward, FirstLayer, Heard, PlainAnswer, Full, Sound;
    if e.seqLen <= |ids| { EachTokenAtItsPosition(m, e, ids); }
    if Heard(m, e, ids) { ForwardAnswers(m, e, ids); }
  }
}
