/** The forward engine: its loops over tokens, layers, heads and positions on the
    strided cache, proved to compute ForwardModel. */
module ForwardEngine {
  import opened Bytes
  import opened KvModel
  import opened KvCache
  import opened ForwardModel
  import opened ForwardReference

  lemma LookupHit(v: View, kind: Kind, layer: nat, head: nat, n: nat, t: nat)
    requires Full(v) && layer < v.shape.numLayers && head < Heads(v.shape, kind) && t < n <= v.cap
    ensures Lookup(v, kind, layer, head, t) == Some(History(v, kind, layer, head, n)[t])
  {
  }

  function IndexScoresUpTo(m: Model, layer: nat, pos: nat, x: Vec, keys: seq<Vec>, n: nat): (r: seq<Float>)
    requires n <= |keys|
    ensures |r| == n
  {
    seq(n, t requires 0 <= t < n => m.indexScore(layer, pos, x, keys[t]))
  }

  function ScoresUpTo(m: Model, layer: nat, pos: nat, h: nat, x: Vec, keys: seq<Vec>, sel: seq<nat>,
                      n: nat): (r: seq<Float>)
    requires n <= |sel|
    ensures |r| == n
  {
    seq(n, i requires 0 <= i < n => ScoreAt(m, layer, pos, h, x, keys, sel[i]))
  }

  class GLMForward {
    const m: Model
    const kv: KVCache
    var seqLen: nat
    var lastTopkByLayer: seq<seq<nat>>
    var hidden: Vec

    ghost predicate Valid()
      reads this, kv
    {
      && kv.Valid() && Sound(m) && kv.ShapeOf() == m.shape && Full(kv.Contents())
        && |lastTopkByLayer| == m.shape.numLayers
    }

    ghost function State(): Engine
      requires Valid()
      reads this, kv
    {
      Engine(kv.Contents(), seqLen, lastTopkByLayer, hidden)
    }

    /** The engine starts with a small cache that grows on demand. */
    constructor (m: Model)
      requires Sound(m)
      ensures this.m == m && Valid() && fresh(kv) && seqLen == 0 && kv.seqLen == 0 && kv.maxSeqLen == 64
    {
      this.m := m;
      var cache := new KVCache();
      cache.Init(m.shape.numLayers, m.shape.numHeads, m.shape.qkDim, m.shape.vDim, m.shape.indexDim, 64);
      SizedFull(cache.layerBuffers, m.shape, 64, 0);
      kv := cache;
      seqLen := 0;
      lastTopkByLayer := seq(m.shape.numLayers, _ => []);
      hidden := [];
    }

    /** Only the two counters are cleared. */
    method Reset()
      requires Valid()
      modifies this, kv
      ensures Valid() && State() == ForwardModel.Reset(old(State()))
    {
      kv.Clear();
      seqLen := 0;
    }

    /** The scoring loop of the indexer over every position so far. */
    method IndexScores(layer: nat, x: Vec) returns (scores: seq<Float>)
      requires Valid() && layer < m.shape.numLayers && seqLen < kv.maxSeqLen
      ensures scores == IndexScoresUpTo(m, layer, seqLen, x, History(kv.Contents(), Indexer, layer, 0, seqLen + 1),
          seqLen + 1)
    {
      hide Sized, CellsOf, Full, Sound, History, Lookup;
      var n := seqLen + 1;
      ghost var v := kv.Contents();
      ghost var keys := History(v, Indexer, layer, 0, n);
      assert |keys| == n by { HistoryLength(v, Indexer, layer, 0, n); }
      scores := [];
      var t := 0;
      while t < n
        invariant 0 <= t <= n && scores == IndexScoresUpTo(m, layer, seqLen, x, keys, t)
      {
        var kt := kv.GetIndexKey(layer, t);
        LookupHit(v, Indexer, layer, 0, n, t);
        scores := scores + [m.indexScore(layer, seqLen, x, kt.value)];
        t := t + 1;
      }
    }

    /** The indexer: cache this token's indexer key, score all positions, keep the best. */
    method DsaIndexer(layer: nat, x: Vec) returns (sel: seq<nat>)
      requires Valid() && layer < m.shape.numLayers && seqLen < kv.maxSeqLen
      modifies kv
      ensures Valid() && kv.maxSeqLen == old(kv.maxSeqLen)
      ensures kv.Contents() == Append(old(kv.Contents()), Indexer, layer, seqLen, m.indexKeyOf(layer, seqLen, x))
      ensures var keys := History(kv.Contents(), Indexer, layer, 0, seqLen + 1);
        sel == TopK(IndexScoresUpTo(m, layer, seqLen, x, keys, seqLen + 1), m.indexTopk)
    {
      hide Sized, CellsOf, Full, History, TopK, Append;
      ghost var v := kv.Contents();
      AppendKeeps(v, Indexer, layer, seqLen, m.indexKeyOf(layer, seqLen, x));
      kv.AppendIndexKey(layer, seqLen, m.indexKeyOf(layer, seqLen, x));
      var scores := IndexScores(layer, x);
      sel := TopK(scores, m.indexTopk);
    }

    /** One head: score the selected positions, then mix their values. */
    method HeadAttention(layer: nat, h: nat, x: Vec, sel: seq<nat>) returns (acc: Vec)
      requires Valid() && layer < m.shape.numLayers && h < m.shape.numHeads && seqLen < kv.maxSeqLen
      ensures acc == HeadOut(m, layer, seqLen, h, x, sel, History(kv.Contents(), Key, layer, h, seqLen + 1),
                             History(kv.Contents(), Value, layer, h, seqLen + 1))
    {
      hide Sized, CellsOf, Full, History, Mixed;
      var weights := HeadWeights(layer, h, x, sel);
      acc := MixValues(layer, h, sel, weights);
    }

    method HeadWeights(layer: nat, h: nat, x: Vec, sel: seq<nat>) returns (weights: seq<Float>)
      requires Valid() && layer < m.shape.numLayers && h < m.shape.numHeads && seqLen < kv.maxSeqLen
      ensures weights == Weights(m, layer, seqLen, h, x, sel, History(kv.Contents(), Key, layer, h, seqLen + 1))
      ensures |weights| == |sel|
    {
      hide Sized, CellsOf, Full, History, Lookup;
      var n := seqLen + 1;
      ghost var v := kv.Contents();
      ghost var keys := History(v, Key, layer, h, n);
      assert |keys| == n by { HistoryLength(v, Key, layer, h, n); }
      var scores: seq<Float> := [];
      var i := 0;
      while i < |sel|
        invariant 0 <= i <= |sel| && scores == ScoresUpTo(m, layer, seqLen, h, x, keys, sel, i)
      {
        var t := sel[i];
        if t >= n {
          scores := scores + [-1e30];
        } else {
          var histK := kv.GetKey(layer, h, t);
          LookupHit(v, Key, layer, h, n, t);
          scores := scores + [m.score(layer, seqLen, h, x, histK.value)];
        }
        i := i + 1;
      }
      weights := m.softmax(scores);
    }

    method MixValues(layer: nat, h: nat, sel: seq<nat>, weights: seq<Float>) returns (acc: Vec)
      requires Valid() && layer < m.shape.numLayers && h < m.shape.numHeads && seqLen < kv.maxSeqLen
        && |weights| == |sel|
      ensures acc == Mixed(m, weights, sel, History(kv.Contents(), Value, layer, h, seqLen + 1), |sel|)
    {
      hide Sized, CellsOf, Full, History, Lookup;
      var n := seqLen + 1;
      ghost var v := kv.Contents();
      ghost var values := History(v, Value, layer, h, n);
      assert |values| == n by { HistoryLength(v, Value, layer, h, n); }
      acc := Zero(m.shape.vDim);
      var i := 0;
      while i < |sel|
        invariant 0 <= i <= |sel| && acc == Mixed(m, weights, sel, values, i)
      {
        var t := sel[i];
        if t < n {
          var histV := kv.GetValue(layer, h, t);
          LookupHit(v, Value, layer, h, n, t);
          acc := m.accumulate(acc, weights[i], histV.value);
        }
        i := i + 1;
      }
    }

    /** Cache this token's key and value, run the indexer where the layer has
        one, and attend to the selected positions. */
    method AttentionLayer(layer: nat, x: Vec, handed: seq<nat>) returns (out: seq<Vec>, sel: seq<nat>)
      requires Valid() && layer < m.shape.numLayers && seqLen < kv.maxSeqLen
      modifies kv
      ensures Valid() && kv.maxSeqLen == old(kv.maxSeqLen)
      ensures kv.Contents() == Cached(m, old(kv.Contents()), layer, seqLen, x)
      ensures sel == Pick(m, layer, seqLen, x, handed,
          if m.dsa(layer) then History(kv.Contents(), Indexer, layer, 0, seqLen + 1) else [])
      ensures out == Attend(m, layer, seqLen, x, sel, Histories(kv.Contents(), Key, layer, seqLen + 1),
                            Histories(kv.Contents(), Value, layer, seqLen + 1))
    {
      hide Sized, CellsOf, Full, History, Histories, Cached, Pick, Attend;
      sel := CacheAndSelect(layer, x, handed);
      out := AttendHeads(layer, x, sel);
    }

    method CacheAndSelect(layer: nat, x: Vec, handed: seq<nat>) returns (sel: seq<nat>)
      requires Valid() && layer < m.shape.numLayers && seqLen < kv.maxSeqLen
      modifies kv
      ensures Valid() && kv.maxSeqLen == old(kv.maxSeqLen)
      ensures kv.Contents() == Cached(m, old(kv.Contents()), layer, seqLen, x)
      ensures sel == Pick(m, layer, seqLen, x, handed,
          if m.dsa(layer) then History(kv.Contents(), Indexer, layer, 0, seqLen + 1) else [])
    {
      hide Sized, CellsOf, Full, History, TopK, Append;
      ghost var v := kv.Contents();
      AppendKeeps(v, Key, layer, seqLen, m.keyOf(layer, seqLen, x));
      kv.AppendKey(layer, seqLen, m.keyOf(layer, seqLen, x));
      AppendKeeps(kv.Contents(), Value, layer, seqLen, m.valueOf(layer, seqLen, x));
      kv.AppendValue(layer, seqLen, m.valueOf(layer, seqLen, x));
      sel := handed;
      if m.dsa(layer) {
        sel := DsaIndexer(layer, x);
        HistoryLength(kv.Contents(), Indexer, layer, 0, seqLen + 1);
      }
      if sel == [] {
        sel := Everything(seqLen + 1);
      }
    }

    method AttendHeads(layer: nat, x: Vec, sel: seq<nat>) returns (out: seq<Vec>)
      requires Valid() && layer < m.shape.numLayers && seqLen < kv.maxSeqLen
      ensures out == Attend(m, layer, seqLen, x, sel, Histories(kv.Contents(), Key, layer, seqLen + 1),
                            Histories(kv.Contents(), Value, layer, seqLen + 1))
    {
      hide Sized, CellsOf, Full, History, HeadOut, Sound;
      ghost var keys, values := Histories(kv.Contents(), Key, layer, seqLen + 1),
          Histories(kv.Contents(), Value, layer, seqLen + 1);
      out := [];
      var h := 0;
      while h < m.shape.numHeads
        invariant 0 <= h <= m.shape.numHeads && |out| == h
        invariant forall g :: 0 <= g < h ==> out[g] == HeadOut(m, layer, seqLen, g, x, sel, keys[g], values[g])
      {
        var acc := HeadAttention(layer, h, x, sel);
        out := out + [acc];
        h := h + 1;
      }
    }

    /** One token through all layers, then both counters. */
    method ForwardToken(id: int)
      requires Valid() && seqLen < kv.maxSeqLen
      modifies this, kv
      ensures Valid() && kv.maxSeqLen == old(kv.maxSeqLen)
      ensures State() == TokenStep(m, old(State()), id)
    {
      hide Sized, CellsOf, Full, Sound, LayerStep;
      var embedded := m.embed(id);
      ghost var c := Carry(kv.Contents(), embedded, [], []);
      hidden := embedded;
      var sel: seq<nat> := [];
      var layer := 0;
      while layer < m.shape.numLayers
        invariant 0 <= layer <= m.shape.numLayers && Valid() && seqLen == old(seqLen)
            && kv.maxSeqLen == old(kv.maxSeqLen)
        invariant Layers(m, c, seqLen, layer) == Carry(kv.Contents(), hidden, sel, lastTopkByLayer[..layer])
      {
        sel := ForwardLayer(layer, sel);
        layer := layer + 1;
      }
      assert lastTopkByLayer[..layer] == lastTopkByLayer;
      AdvanceFull(kv.Contents());
      kv.Advance();
      seqLen := seqLen + 1;
    }

    /** One layer of one token, with its residuals and MLP. */
    method ForwardLayer(layer: nat, handed: seq<nat>) returns (sel: seq<nat>)
      requires Valid() && layer < m.shape.numLayers && seqLen < kv.maxSeqLen
      modifies this, kv
      ensures Valid() && seqLen == old(seqLen) && kv.maxSeqLen == old(kv.maxSeqLen)
      ensures LayerStep(m, Carry(old(kv.Contents()), old(hidden), handed, old(lastTopkByLayer[..layer])), layer, seqLen)
           == Carry(kv.Contents(), hidden, sel, lastTopkByLayer[..layer + 1])
    {
      hide Sized, CellsOf, Full, Sound, Cached, Pick, Attend, History, Histories;
      var x := m.norm(layer, hidden);
      var out, picked := AttentionLayer(layer, x, handed);
      sel := picked;
      lastTopkByLayer := lastTopkByLayer[layer := sel];
      hidden := m.finish(layer, hidden, out);
      assert lastTopkByLayer[..layer + 1] == old(lastTopkByLayer[..layer]) + [sel];
    }

    /** Reserve once, feed every new token, sample after the last. */
    method Forward(inputIds: seq<int>) returns (token: int)
      requires Valid()
      modifies this, kv
      ensures Valid() && (State(), token) == ForwardModel.Forward(m, old(State()), inputIds)
      ensures CallIsRight(m, old(State()), inputIds, State(), token)
    {
      hide Sized, CellsOf, Full, Sound, TokenStep, CallIsRight;
      ForwardIsRight(m, State(), inputIds);
      ghost var e := Prepared(State(), |inputIds|);
      kv.Reserve(|inputIds| + 16);
      var tok := seqLen;
      while tok < |inputIds|
        invariant seqLen == tok && Valid() && |inputIds| <= kv.maxSeqLen
        invariant tok < |inputIds| || tok == old(seqLen)
        invariant Feed(m, State(), inputIds, |inputIds|) == Feed(m, e, inputIds, |inputIds|)
      {
        ForwardToken(inputIds[tok]);
        if tok == |inputIds| - 1 {
          return m.sample(hidden);
        }
        tok := tok + 1;
      }
      return -1;
    }
  }

  lemma HistoryLength(v: View, kind: Kind, layer: nat, head: nat, n: nat)
    requires Full(v) && layer < v.shape.numLayers && head < Heads(v.shape, kind) && n <= v.cap
    ensures |History(v, kind, layer, head, n)| == n
  {
  }

  /** Appending below the capacity keeps it. */
  lemma AppendKeeps(v: View, kind: Kind, layer: nat, pos: nat, data: Vec)
    requires Full(v) && DataFits(v.shape, kind, data) && layer < v.shape.numLayers && pos < v.cap
    ensures Full(Append(v, kind, layer, pos, data)) && Append(v, kind, layer, pos, data).cap == v.cap
    ensures Append(v, kind, layer, pos, data).shape == v.shape
  {
    AppendFull(v, kind, layer, pos, data);
    AppendCap(v, kind, layer, pos, data);
  }
}
