/** What the forward engine guarantees over whole calls: counters in step,
    nothing stale read after a reset, and feeding a conversation piece by piece
    is the same as feeding it at once. */
module ForwardRuns {
  import opened KvModel
  import opened ForwardModel

  // ---------------------------------------------------------------- counters in step

  /** The cache counts the engine's tokens. */
  ghost predicate InStep(m: Model, e: Engine) {
    Ready(m, e) && e.cache.seqLen == e.seqLen <= e.cache.cap
  }

  lemma {:induction false} FeedInStep(m: Model, e: Engine, ids: seq<int>, to: nat)
    requires InStep(m, e) && to <= |ids| && to <= e.cache.cap
    ensures InStep(m, Feed(m, e, ids, to))
    decreases if to > e.seqLen then to - e.seqLen else 0
  {
    hide TokenStep, Ready;
    if e.seqLen < to {
      FeedInStep(m, TokenStep(m, e, ids[e.seqLen]), ids, to);
    }
  }

  /** The reservation keeps the cache's counter from ever saturating: after any
      call both counters agree, at the length of the input or where they were. */
  lemma CountersStayInStep(m: Model, e: Engine, ids: seq<int>)
    requires InStep(m, e)
    ensures var r := Forward(m, e, ids).0;
      InStep(m, r) && r.seqLen == (if e.seqLen < |ids| then |ids| else e.seqLen)
    ensures InStep(m, Reset(e))
  {
    hide Feed;
    FeedInStep(m, Prepared(e, |ids|), ids, |ids|);
  }

  // ---------------------------------------------------------------- nothing stale is read

  /** Cells the engine ever looks at: indexer keys only on indexer layers. */
  predicate Relevant(m: Model, p: Place) {
    p.kind.Indexer? ==> m.dsa(p.layer)
  }

  /** Written before layer `layer` of the token at pos. */
  predicate Before(p: Place, pos: nat, layer: nat) {
    p.pos < pos || (p.pos == pos && p.layer < layer)
  }

  /** The caches agree on what has been written since position 0. */
  ghost predicate Agree(m: Model, v: View, w: View, pos: nat, layer: nat) {
    && v.shape == m.shape && w.shape == m.shape && Full(v) && Full(w)
    && forall p :: p in v.cells && p in w.cells && Relevant(m, p) && Before(p, pos, layer) ==> v.cells[p] == w.cells[p]
  }

  lemma AppendCell(v: View, kind: Kind, layer: nat, pos: nat, data: Vec, p: Place)
    requires Full(v) && DataFits(v.shape, kind, data) && layer < v.shape.numLayers && pos < v.cap
    ensures Append(v, kind, layer, pos, data).cap == v.cap
    ensures p in Append(v, kind, layer, pos, data).cells <==> p in v.cells
    ensures p in v.cells && p.kind == kind && p.layer == layer && p.pos == pos ==>
      Append(v, kind, layer, pos, data).cells[p] == PartFor(v.shape, data, p)
    ensures p in v.cells && !(p.kind == kind && p.layer == layer && p.pos == pos) ==>
      Append(v, kind, layer, pos, data).cells[p] == v.cells[p]
  {
    hide PartFor, Dim, Heads;
  }

  /** What the token at pos puts into a layer's cells of a kind. */
  ghost function NewData(m: Model, kind: Kind, layer: nat, pos: nat, x: Vec): (r: Vec)
    requires Sound(m)
    ensures DataFits(m.shape, kind, r)
  {
    match kind
    case Key => m.keyOf(layer, pos, x)
    case Value => m.valueOf(layer, pos, x)
    case Indexer => m.indexKeyOf(layer, pos, x)
  }

  lemma CachedCell(m: Model, v: View, layer: nat, pos: nat, x: Vec, p: Place)
    requires Sound(m) && v.shape == m.shape && Full(v) && layer < m.shape.numLayers && pos < v.cap
    ensures p in Cached(m, v, layer, pos, x).cells <==> p in v.cells
    ensures p in v.cells && p.layer == layer && p.pos == pos && Relevant(m, p) ==>
      Cached(m, v, layer, pos, x).cells[p] == PartFor(m.shape, NewData(m, p.kind, layer, pos, x), p)
    ensures p in v.cells && !(p.layer == layer && p.pos == pos && Relevant(m, p)) ==>
      Cached(m, v, layer, pos, x).cells[p] == v.cells[p]
  {
    hide Append, Full, PartFor, Dim, Heads;
    assert Within(v.shape, v.cap, p) <==> p in v.cells by { FullAt(v, p); }
    var k, u, i := m.keyOf(layer, pos, x), m.valueOf(layer, pos, x), m.indexKeyOf(layer, pos, x);
    AppendCell(v, Key, layer, pos, k, p);
    AppendFull(v, Key, layer, pos, k);
    AppendCap(v, Key, layer, pos, k);
    var a := Append(v, Key, layer, pos, k);
    AppendCell(a, Value, layer, pos, u, p);
    AppendFull(a, Value, layer, pos, u);
    AppendCap(a, Value, layer, pos, u);
    var b := Append(a, Value, layer, pos, u);
    AppendCell(b, Indexer, layer, pos, i, p);
  }

  lemma FullAt(v: View, p: Place)
    requires Full(v)
    ensures p in v.cells <==> Within(v.shape, v.cap, p)
  {
  }

  lemma CachedAgree(m: Model, v: View, w: View, layer: nat, pos: nat, x: Vec)
    requires Sound(m) && Agree(m, v, w, pos, layer) && layer < m.shape.numLayers && pos < v.cap && pos < w.cap
    ensures Agree(m, Cached(m, v, layer, pos, x), Cached(m, w, layer, pos, x), pos, layer + 1)
  {
    CachedFull(m, v, layer, pos, x);
    CachedFull(m, w, layer, pos, x);
    var a, b := Cached(m, v, layer, pos, x), Cached(m, w, layer, pos, x);
    hide Cached, Full, Sound, PartFor;
    forall p | p in a.cells && p in b.cells && Relevant(m, p) && Before(p, pos, layer + 1)
      ensures a.cells[p] == b.cells[p]
    {
      CachedCell(m, v, layer, pos, x, p);
      CachedCell(m, w, layer, pos, x, p);
    }
  }

  lemma HistoryAgree(m: Model, v: View, w: View, kind: Kind, layer: nat, head: nat, pos: nat)
    requires Agree(m, v, w, pos, layer + 1) && layer < m.shape.numLayers && head < Heads(m.shape, kind) && pos < v.cap
      && pos < w.cap
    requires kind.Indexer? ==> m.dsa(layer)
    ensures History(v, kind, layer, head, pos + 1) == History(w, kind, layer, head, pos + 1)
  {
    forall t: nat | t <= pos ensures v.cells[Place(kind, layer, head, t)] == w.cells[Place(kind, layer, head, t)] {
      assert Before(Place(kind, layer, head, t), pos, layer + 1) && Relevant(m, Place(kind, layer, head, t));
    }
  }

  lemma HistoriesAgree(m: Model, v: View, w: View, kind: Kind, layer: nat, pos: nat)
    requires Agree(m, v, w, pos, layer + 1) && layer < m.shape.numLayers && pos < v.cap && pos < w.cap && !kind.Indexer?
    ensures Histories(v, kind, layer, pos + 1) == Histories(w, kind, layer, pos + 1)
  {
    hide History;
    var n := pos + 1;
    forall h: nat | h < Heads(m.shape, kind) ensures History(v, kind, layer, h, n) == History(w, kind, layer, h, n) {
      HistoryAgree(m, v, w, kind, layer, h, pos);
    }
  }

  /** The carries differ in nothing a layer can see. */
  ghost predicate Alike(m: Model, c: Carry, d: Carry, pos: nat, layer: nat) {
    && Agree(m, c.cache, d.cache, pos, layer) && pos < c.cache.cap && pos < d.cache.cap
    && c.hidden == d.hidden && c.sel == d.sel && c.picks == d.picks
  }

  lemma LayerAlike(m: Model, c: Carry, d: Carry, layer: nat, pos: nat)
    requires Sound(m) && Alike(m, c, d, pos, layer) && layer < m.shape.numLayers
    ensures Alike(m, LayerStep(m, c, layer, pos), LayerStep(m, d, layer, pos), pos, layer + 1)
  {
    hide Sound, Full, Cached, History, Histories, Pick, Attend, PartFor;
    var x := m.norm(layer, c.hidden);
    CachedFull(m, c.cache, layer, pos, x);
    CachedFull(m, d.cache, layer, pos, x);
    CachedAgree(m, c.cache, d.cache, layer, pos, x);
    var a, b := Cached(m, c.cache, layer, pos, x), Cached(m, d.cache, layer, pos, x);
    if m.dsa(layer) { HistoryAgree(m, a, b, Indexer, layer, 0, pos); }
    HistoriesAgree(m, a, b, Key, layer, pos);
    HistoriesAgree(m, a, b, Value, layer, pos);
  }

  lemma {:induction false} LayersAlike(m: Model, c: Carry, d: Carry, pos: nat, n: nat)
    requires Sound(m) && Alike(m, c, d, pos, 0) && n <= m.shape.numLayers
    ensures Alike(m, Layers(m, c, pos, n), Layers(m, d, pos, n), pos, n)
  {
    hide Sound, Full, LayerStep, Before, Relevant;
    if n > 0 {
      LayersAlike(m, c, d, pos, n - 1);
      LayerAlike(m, Layers(m, c, pos, n - 1), Layers(m, d, pos, n - 1), n - 1, pos);
    }
  }

  /** The engines have seen the same tokens since their last reset. */
  ghost predicate SameTalk(m: Model, e: Engine, f: Engine) {
    && Ready(m, e) && Ready(m, f) && e.seqLen == f.seqLen && e.seqLen <= e.cache.cap && f.seqLen <= f.cache.cap
    && Agree(m, e.cache, f.cache, e.seqLen, 0)
  }

  lemma TokenAlike(m: Model, e: Engine, f: Engine, id: int)
    requires SameTalk(m, e, f) && e.seqLen < e.cache.cap && f.seqLen < f.cache.cap
    ensures var (r, q) := (TokenStep(m, e, id), TokenStep(m, f, id));
      SameTalk(m, r, q) && r.lastTopk == q.lastTopk && r.hidden == q.hidden
  {
    hide Sound, Layers, Relevant;
    var n := m.shape.numLayers;
    var c, d := Carry(e.cache, m.embed(id), [], []), Carry(f.cache, m.embed(id), [], []);
    LayersAlike(m, c, d, e.seqLen, n);
    var v, w := Layers(m, c, e.seqLen, n).cache, Layers(m, d, e.seqLen, n).cache;
    AllLayersDone(m, v, w, e.seqLen);
  }

  lemma AllLayersDone(m: Model, v: View, w: View, pos: nat)
    requires Agree(m, v, w, pos, m.shape.numLayers)
    ensures Agree(m, Advance(v), Advance(w), pos + 1, 0)
  {
    hide Relevant;
    forall p | p in v.cells && p in w.cells && Before(p, pos + 1, 0) ensures Before(p, pos, m.shape.numLayers) {
    }
  }

  lemma {:induction false} FeedAlike(m: Model, e: Engine, f: Engine, ids: seq<int>, to: nat)
    requires SameTalk(m, e, f) && to <= |ids| && to <= e.cache.cap && to <= f.cache.cap
    ensures var (r, q) := (Feed(m, e, ids, to), Feed(m, f, ids, to));
      SameTalk(m, r, q) && (e.seqLen < to ==> r.lastTopk == q.lastTopk && r.hidden == q.hidden)
    decreases if to > e.seqLen then to - e.seqLen else 0
  {
    hide TokenStep, Agree, Ready;
    if e.seqLen < to {
      assert f.seqLen < to;
      TokenAlike(m, e, f, ids[e.seqLen]);
      var r, q := TokenStep(m, e, ids[e.seqLen]), TokenStep(m, f, ids[e.seqLen]);
      FeedAlike(m, r, q, ids, to);
    }
  }

  lemma PreparedAlike(m: Model, e: Engine, f: Engine, n: nat)
    requires SameTalk(m, e, f)
    ensures SameTalk(m, Prepared(e, n), Prepared(f, n))
  {
    hide Relevant, GrownCapacity;
    GrownFull(e.cache, n + 16);
    GrownFull(f.cache, n + 16);
  }

  lemma ForwardAlike(m: Model, e: Engine, f: Engine, ids: seq<int>)
    requires SameTalk(m, e, f)
    ensures SameTalk(m, Forward(m, e, ids).0, Forward(m, f, ids).0)
    ensures Forward(m, e, ids).1 == Forward(m, f, ids).1
    ensures e.seqLen < |ids| ==> Forward(m, e, ids).0.lastTopk == Forward(m, f, ids).0.lastTopk
  {
    hide Agree, Feed;
    PreparedAlike(m, e, f, |ids|);
    FeedAlike(m, Prepared(e, |ids|), Prepared(f, |ids|), ids, |ids|);
  }

  /** The tokens of a conversation: one call after another. */
  ghost function Talk(m: Model, e: Engine, calls: seq<seq<int>>): seq<int>
    requires Ready(m, e)
    decreases |calls|
  {
    if calls == [] then [] else [Forward(m, e, calls[0]).1] + Talk(m, Forward(m, e, calls[0]).0, calls[1..])
  }

  lemma {:induction false} TalkAlike(m: Model, e: Engine, f: Engine, calls: seq<seq<int>>)
    requires SameTalk(m, e, f)
    ensures Talk(m, e, calls) == Talk(m, f, calls)
    decreases |calls|
  {
    hide Forward;
    if calls != [] {
      ForwardAlike(m, e, f, calls[0]);
      TalkAlike(m, Forward(m, e, calls[0]).0, Forward(m, f, calls[0]).0, calls[1..]);
    }
  }

  /** After a reset nothing cached before it matters: two engines with any
      caches, of any capacities, answer a new conversation alike, although the
      reset only cleared two counters. */
  lemma ResetForgets(m: Model, e: Engine, f: Engine, calls: seq<seq<int>>)
    requires Ready(m, e) && Ready(m, f)
    ensures Talk(m, Reset(e), calls) == Talk(m, Reset(f), calls)
  {
    hide Talk;
    TalkAlike(m, Reset(e), Reset(f), calls);
  }

  // ---------------------------------------------------------------- growing early or late

  ghost function Roomy(e: Engine, n: nat): Engine {
    e.(cache := Grown(e.cache, n))
  }

  lemma SameView(v: View, w: View)
    requires v.shape == w.shape && v.cap == w.cap && v.seqLen == w.seqLen && Full(v) && Full(w)
    requires forall p :: p in v.cells ==> v.cells[p] == w.cells[p]
    ensures v == w
  {
  }

  lemma ReserveIsGrown(v: View, n: nat)
    requires Full(v)
    ensures Reserve(v, n) == Grown(v, n)
  {
    if n <= v.cap {
      GrownFull(v, n);
      SameView(v, Grown(v, n));
    }
  }

  lemma GrownTwice(v: View, a: nat, b: nat)
    requires Full(v) && a <= b
    ensures Grown(Grown(v, a), b) == Grown(v, b)
  {
    GrownFull(v, a);
    GrownFull(Grown(v, a), b);
    GrownFull(v, b);
    GrowthPathIndependent(v.cap, a, b);
    hide GrownCapacity, Zero;
    SameView(Grown(Grown(v, a), b), Grown(v, b));
  }

  /** Growing before or after a write below the capacity is the same. */
  lemma GrowAppend(v: View, n: nat, kind: Kind, layer: nat, pos: nat, data: Vec)
    requires Full(v) && DataFits(v.shape, kind, data) && layer < v.shape.numLayers && pos < v.cap
    ensures Append(Grown(v, n), kind, layer, pos, data) == Grown(Append(v, kind, layer, pos, data), n)
  {
    var g, a := Grown(v, n), Append(v, kind, layer, pos, data);
    GrownFull(v, n);
    AppendFull(v, kind, layer, pos, data);
    AppendCap(v, kind, layer, pos, data);
    AppendFull(g, kind, layer, pos, data);
    AppendCap(g, kind, layer, pos, data);
    GrownFull(a, n);
    assert a.cap == v.cap && Append(g, kind, layer, pos, data).cap == g.cap == Grown(a, n).cap;
    hide GrownCapacity, Zero, PartFor, Append, DataFits;
    forall p | p in Append(g, kind, layer, pos, data).cells
      ensures Append(g, kind, layer, pos, data).cells[p] == Grown(a, n).cells[p]
    {
      AppendCell(g, kind, layer, pos, data, p);
      AppendCell(v, kind, layer, pos, data, p);
    }
    SameView(Append(g, kind, layer, pos, data), Grown(a, n));
  }

  lemma GrowCached(m: Model, v: View, n: nat, layer: nat, pos: nat, x: Vec)
    requires Sound(m) && v.shape == m.shape && Full(v) && layer < m.shape.numLayers && pos < v.cap
    ensures Cached(m, Grown(v, n), layer, pos, x) == Grown(Cached(m, v, layer, pos, x), n)
  {
    hide Full, Append, Grown, DataFits;
    var k, u, i := m.keyOf(layer, pos, x), m.valueOf(layer, pos, x), m.indexKeyOf(layer, pos, x);
    GrownFull(v, n);
    GrowAppend(v, n, Key, layer, pos, k);
    AppendFull(v, Key, layer, pos, k);
    AppendCap(v, Key, layer, pos, k);
    var a := Append(v, Key, layer, pos, k);
    GrowAppend(a, n, Value, layer, pos, u);
    AppendFull(a, Value, layer, pos, u);
    AppendCap(a, Value, layer, pos, u);
    var b := Append(a, Value, layer, pos, u);
    GrowAppend(b, n, Indexer, layer, pos, i);
  }

  lemma GrowHistories(v: View, n: nat, layer: nat, len: nat)
    requires Full(v) && layer < v.shape.numLayers && len <= v.cap
    ensures Full(Grown(v, n)) && Grown(v, n).cap >= v.cap && Grown(v, n).shape == v.shape
    ensures History(Grown(v, n), Indexer, layer, 0, len) == History(v, Indexer, layer, 0, len)
    ensures Histories(Grown(v, n), Key, layer, len) == Histories(v, Key, layer, len)
    ensures Histories(Grown(v, n), Value, layer, len) == Histories(v, Value, layer, len)
  {
    GrownFull(v, n);
    hide Full, GrownCapacity, Zero, Histories, History;
    GrowHistory(v, n, Indexer, layer, 0, len);
    GrowHeads(v, n, Key, layer, len);
    GrowHeads(v, n, Value, layer, len);
  }

  lemma GrowHistory(v: View, n: nat, kind: Kind, layer: nat, head: nat, len: nat)
    requires Full(v) && Full(Grown(v, n)) && Grown(v, n).cap >= v.cap
    requires layer < v.shape.numLayers && head < Heads(v.shape, kind) && len <= v.cap
    ensures History(Grown(v, n), kind, layer, head, len) == History(v, kind, layer, head, len)
  {
    hide GrownCapacity, Zero;
  }

  lemma GrowHeads(v: View, n: nat, kind: Kind, layer: nat, len: nat)
    requires Full(v) && Full(Grown(v, n)) && Grown(v, n).cap >= v.cap && layer < v.shape.numLayers && len <= v.cap
    ensures Histories(Grown(v, n), kind, layer, len) == Histories(v, kind, layer, len)
  {
    hide GrownCapacity, Zero, History, Full;
    forall h: nat | h < Heads(v.shape, kind)
      ensures History(Grown(v, n), kind, layer, h, len) == History(v, kind, layer, h, len)
    {
      GrowHistory(v, n, kind, layer, h, len);
    }
  }

  lemma GrowLayer(m: Model, c: Carry, n: nat, layer: nat, pos: nat)
    requires Sound(m) && c.cache.shape == m.shape && Full(c.cache) && layer < m.shape.numLayers && pos < c.cache.cap
    ensures Full(Grown(c.cache, n)) && Grown(c.cache, n).shape == m.shape
    ensures LayerStep(m, c.(cache := Grown(c.cache, n)), layer, pos)
         == LayerStep(m, c, layer, pos).(cache := Grown(LayerStep(m, c, layer, pos).cache, n))
  {
    hide Sound, Full, Cached, Grown, Pick, Attend, History, Histories;
    var x := m.norm(layer, c.hidden);
    GrownFull(c.cache, n);
    CachedFull(m, c.cache, layer, pos, x);
    GrowCached(m, c.cache, n, layer, pos, x);
    GrowHistories(Cached(m, c.cache, layer, pos, x), n, layer, pos + 1);
  }

  lemma {:induction false} GrowLayers(m: Model, c: Carry, n: nat, pos: nat, k: nat)
    requires Sound(m) && c.cache.shape == m.shape && Full(c.cache) && k <= m.shape.numLayers && pos < c.cache.cap
    ensures Full(Grown(c.cache, n)) && Grown(c.cache, n).shape == m.shape && pos < Grown(c.cache, n).cap
    ensures Layers(m, c.(cache := Grown(c.cache, n)), pos, k)
        == Layers(m, c, pos, k).(cache := Grown(Layers(m, c, pos, k).cache, n))
  {
    hide Sound, Full, Grown, LayerStep;
    GrownFull(c.cache, n);
    if k > 0 {
      GrowLayers(m, c, n, pos, k - 1);
      GrowLayer(m, Layers(m, c, pos, k - 1), n, k - 1, pos);
    }
  }

  lemma GrowToken(m: Model, e: Engine, n: nat, id: int)
    requires InStep(m, e) && e.seqLen < e.cache.cap
    ensures InStep(m, Roomy(e, n)) && Roomy(e, n).seqLen < Roomy(e, n).cache.cap
    ensures TokenStep(m, Roomy(e, n), id) == Roomy(TokenStep(m, e, id), n)
  {
    hide Sound, Full, Layers;
    GrownFull(e.cache, n);
    var c := Carry(e.cache, m.embed(id), [], []);
    GrowLayers(m, c, n, e.seqLen, m.shape.numLayers);
    GrownFull(Layers(m, c, e.seqLen, m.shape.numLayers).cache, n);
  }

  lemma {:induction false} GrowFeed(m: Model, e: Engine, n: nat, ids: seq<int>, to: nat)
    requires InStep(m, e) && to <= |ids| && to <= e.cache.cap
    ensures InStep(m, Roomy(e, n)) && to <= Roomy(e, n).cache.cap
    ensures Feed(m, Roomy(e, n), ids, to) == Roomy(Feed(m, e, ids, to), n)
    decreases if to > e.seqLen then to - e.seqLen else 0
  {
    GrownFull(e.cache, n);
    hide TokenStep, Full, Sound, Grown;
    if e.seqLen < to {
      var id := ids[e.seqLen];
      GrowToken(m, e, n, id);
      GrowFeed(m, TokenStep(m, e, id), n, ids, to);
    }
  }

  // ---------------------------------------------------------------- piece by piece

  lemma {:induction false} FeedSplit(m: Model, e: Engine, ids: seq<int>, mid: nat, to: nat)
    requires Ready(m, e) && mid <= to <= |ids| && to <= e.cache.cap
    ensures Feed(m, Feed(m, e, ids, mid), ids, to) == Feed(m, e, ids, to)
    decreases if to > e.seqLen then to - e.seqLen else 0
  {
    hide TokenStep, Ready;
    if e.seqLen < mid {
      FeedSplit(m, TokenStep(m, e, ids[e.seqLen]), ids, mid, to);
    }
  }

  lemma {:induction false} FeedPrefix(m: Model, e: Engine, prefix: seq<int>, ids: seq<int>)
    requires Ready(m, e) && prefix <= ids && |prefix| <= e.cache.cap
    ensures Feed(m, e, prefix, |prefix|) == Feed(m, e, ids, |prefix|)
    decreases if |prefix| > e.seqLen then |prefix| - e.seqLen else 0
  {
    hide TokenStep, Ready;
    if e.seqLen < |prefix| {
      assert prefix[e.seqLen] == ids[e.seqLen];
      FeedPrefix(m, TokenStep(m, e, ids[e.seqLen]), prefix, ids);
    }
  }

  /** Feeding a prefix and then the whole input leaves the same engine as feeding
      the whole input at once: same cells, same capacity, same counters, same
      selections. */
  lemma PieceByPieceState(m: Model, e: Engine, prefix: seq<int>, ids: seq<int>)
    requires InStep(m, e) && prefix <= ids
    ensures Forward(m, Forward(m, e, prefix).0, ids).0 == Forward(m, e, ids).0
  {
    hide *;
    ForwardState(m, e, prefix);
    ForwardState(m, e, ids);
    CountersStayInStep(m, e, prefix);
    ForwardState(m, Forward(m, e, prefix).0, ids);
    PreparedTwice(m, e, |prefix|, |ids|);
    FedInPieces(m, Prepared(e, |prefix|), prefix, ids);
  }

  lemma ForwardState(m: Model, e: Engine, ids: seq<int>)
    requires InStep(m, e)
    ensures Ready(m, e) && Full(e.cache) && Ready(m, Prepared(e, |ids|)) && |ids| <= Prepared(e, |ids|).cache.cap
    ensures Forward(m, e, ids).0 == Feed(m, Prepared(e, |ids|), ids, |ids|)
  {
    hide Feed, Sound, Reserve;
  }

  lemma FedInPieces(m: Model, e: Engine, prefix: seq<int>, ids: seq<int>)
    requires InStep(m, e) && prefix <= ids && |prefix| <= e.cache.cap
    ensures Ready(m, e) && Full(Feed(m, e, prefix, |prefix|).cache) && Full(e.cache)
    ensures Ready(m, Prepared(Feed(m, e, prefix, |prefix|), |ids|)) && Ready(m, Roomy(e, |ids| + 16))
    ensures |ids| <= Prepared(Feed(m, e, prefix, |prefix|), |ids|).cache.cap && |ids| <= Roomy(e, |ids| + 16).cache.cap
    ensures Feed(m, Prepared(Feed(m, e, prefix, |prefix|), |ids|), ids, |ids|)
        == Feed(m, Roomy(e, |ids| + 16), ids, |ids|)
  {
    hide Full, Sound, Feed, Prepared, GrownCapacity, Grown;
    FeedPrefix(m, e, prefix, ids);
    FeedInStep(m, e, ids, |prefix|);
    var mid := Feed(m, e, ids, |prefix|);
    PreparedIsRoomy(mid, |ids|);
    GrowFeed(m, e, |ids| + 16, ids, |prefix|);
    GrownFull(e.cache, |ids| + 16);
    GrownFull(mid.cache, |ids| + 16);
    RoomFor(e.cache, |ids| + 16);
    FeedSplit(m, Roomy(e, |ids| + 16), ids, |prefix|, |ids|);
  }

  lemma RoomFor(v: View, n: nat)
    ensures Grown(v, n).cap >= n && Grown(v, n).seqLen == v.seqLen
  {
  }

  lemma PreparedIsRoomy(e: Engine, n: nat)
    requires Full(e.cache)
    ensures Prepared(e, n) == Roomy(e, n + 16)
  {
    ReserveIsGrown(e.cache, n + 16);
  }

  lemma PreparedTwice(m: Model, e: Engine, a: nat, b: nat)
    requires InStep(m, e) && a <= b
    ensures InStep(m, Prepared(e, a)) && InStep(m, Prepared(e, b))
    ensures Roomy(Prepared(e, a), b + 16) == Prepared(e, b)
    ensures a <= Prepared(e, a).cache.cap && Prepared(e, a).seqLen == e.seqLen
  {
    hide Full, Grown, GrownCapacity, Sound, Prepared;
    PreparedIsRoomy(e, a);
    PreparedIsRoomy(e, b);
    GrownTwice(e.cache, a + 16, b + 16);
    GrownFull(e.cache, a + 16);
    GrownFull(e.cache, b + 16);
    RoomFor(e.cache, a + 16);
    RoomFor(e.cache, b + 16);
  }

  /** The returned token is the same exactly when the second call brings new
      tokens (or there was nothing new in the first place): a call whose input
      is not strictly longer than what was fed returns -1. */
  lemma PieceByPieceToken(m: Model, e: Engine, prefix: seq<int>, ids: seq<int>)
    requires InStep(m, e) && prefix <= ids
    ensures Forward(m, Forward(m, e, prefix).0, ids).1 == Forward(m, e, ids).1 <==>
      |prefix| < |ids| || |ids| <= e.seqLen
  {
    PieceByPieceState(m, e, prefix, ids);
    hide Full, Sound, Feed, Reserve, GrownCapacity;
  }
}
