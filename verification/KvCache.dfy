/** The growing head-major key/value cache, proved to hold the map of KvModel. */
module KvCache {
  import opened Bytes
  import opened KvModel
  import opened KvBuffers

  /** One layer: head-major [head][position][dim] keys and values, position-major indexer keys. */
  datatype LayerBuffer = LayerBuffer(key: Vec, value: Vec, indexKey: Vec)

  function BufferOf(b: LayerBuffer, kind: Kind): Vec {
    match kind case Key => b.key case Value => b.value case Indexer => b.indexKey
  }

  ghost predicate LayerSized(b: LayerBuffer, shape: Shape, cap: nat) {
    forall kind: Kind :: IsBlock(BufferOf(b, kind), Heads(shape, kind), cap, Dim(shape, kind))
  }

  ghost predicate Sized(bufs: seq<LayerBuffer>, shape: Shape, cap: nat) {
    |bufs| == shape.numLayers && forall l :: 0 <= l < |bufs| ==> LayerSized(bufs[l], shape, cap)
  }

  ghost function CellOf(bufs: seq<LayerBuffer>, shape: Shape, cap: nat, p: Place): Vec
    requires Sized(bufs, shape, cap) && Within(shape, cap, p)
  {
    assert LayerSized(bufs[p.layer], shape, cap);
    CellAt(BufferOf(bufs[p.layer], p.kind), Heads(shape, p.kind), cap, Dim(shape, p.kind), p.head, p.pos)
  }

  ghost function CellsOf(bufs: seq<LayerBuffer>, shape: Shape, cap: nat): imap<Place, Vec>
    requires Sized(bufs, shape, cap)
  {
    imap p | Within(shape, cap, p) :: CellOf(bufs, shape, cap, p)
  }

  /** Sized buffers hold a cell for every place below the capacity. */
  lemma SizedFull(bufs: seq<LayerBuffer>, shape: Shape, cap: nat, seqLen: nat)
    requires Sized(bufs, shape, cap)
    ensures Full(View(shape, cap, seqLen, CellsOf(bufs, shape, cap)))
  {
    hide LayerSized;
  }

  // ---------------------------------------------------------------- growing

  /** Every buffer of the layer rebased from oldCap to cap. */
  ghost predicate LayerRebased(b: LayerBuffer, was: LayerBuffer, shape: Shape, oldCap: nat, cap: nat) {
    forall kind: Kind :: RebasedUpTo(BufferOf(b, kind), BufferOf(was, kind), Heads(shape, kind), oldCap, cap,
      Dim(shape, kind), Heads(shape, kind))
  }

  lemma RebasedLayerSized(b: LayerBuffer, was: LayerBuffer, shape: Shape, oldCap: nat, cap: nat)
    requires LayerRebased(b, was, shape, oldCap, cap)
    ensures LayerSized(b, shape, cap)
  {
    hide CellAt, Heads, Dim, BufferOf, IsBlock;
    forall kind: Kind ensures IsBlock(BufferOf(b, kind), Heads(shape, kind), cap, Dim(shape, kind)) {
      assert RebasedUpTo(BufferOf(b, kind), BufferOf(was, kind), Heads(shape, kind), oldCap, cap, Dim(shape, kind),
          Heads(shape, kind));
    }
  }

  /** The rebased layers hold the old cells and zeros behind them. */
  lemma RebasedCells(bufs: seq<LayerBuffer>, was: seq<LayerBuffer>, shape: Shape, oldCap: nat, cap: nat)
    requires |bufs| == |was| && Sized(was, shape, oldCap)
    requires forall l :: 0 <= l < |bufs| ==> LayerRebased(bufs[l], was[l], shape, oldCap, cap)
    ensures Sized(bufs, shape, cap)
    ensures forall p :: Within(shape, cap, p) ==>
      CellOf(bufs, shape, cap, p) == if Within(shape, oldCap, p) then CellOf(was, shape, oldCap, p)
                                     else Zero(Dim(shape, p.kind))
  {
    hide CellAt, Heads, Dim, BufferOf, IsBlock, LayerSized, LayerRebased, RebasedUpTo, Zero;
    forall l | 0 <= l < |bufs| ensures LayerSized(bufs[l], shape, cap) {
      RebasedLayerSized(bufs[l], was[l], shape, oldCap, cap);
    }
    forall p | Within(shape, cap, p)
      ensures CellOf(bufs, shape, cap, p) == if Within(shape, oldCap, p) then CellOf(was, shape, oldCap, p)
                                             else Zero(Dim(shape, p.kind))
    {
      RebasedPlace(bufs, was, shape, oldCap, cap, p);
    }
  }

  lemma RebasedPlace(bufs: seq<LayerBuffer>, was: seq<LayerBuffer>, shape: Shape, oldCap: nat, cap: nat, p: Place)
    requires Sized(bufs, shape, cap) && Sized(was, shape, oldCap) && Within(shape, cap, p)
    requires LayerRebased(bufs[p.layer], was[p.layer], shape, oldCap, cap)
    ensures CellOf(bufs, shape, cap, p) == if Within(shape, oldCap, p) then CellOf(was, shape, oldCap, p)
                                           else Zero(Dim(shape, p.kind))
  {
    hide CellAt, Heads, Dim, BufferOf, IsBlock, Zero, RebasedUpTo;
    var b, w := BufferOf(bufs[p.layer], p.kind), BufferOf(was[p.layer], p.kind);
    assert RebasedUpTo(b, w, Heads(shape, p.kind), oldCap, cap, Dim(shape, p.kind), Heads(shape, p.kind));
    RebasedSizes(b, w, Heads(shape, p.kind), oldCap, cap, Dim(shape, p.kind), Heads(shape, p.kind));
    RebasedCell(b, w, Heads(shape, p.kind), oldCap, cap, Dim(shape, p.kind), Heads(shape, p.kind), p.head, p.pos);
  }

  // ---------------------------------------------------------------- appending

  /** One buffer of one layer written at one position. */
  ghost predicate LayerWritten(b: LayerBuffer, was: LayerBuffer, shape: Shape, cap: nat, kind: Kind, pos: nat,
                               data: Vec) {
    && WrittenUpTo(BufferOf(b, kind), BufferOf(was, kind), Heads(shape, kind), cap, Dim(shape, kind), pos, data,
      Heads(shape, kind))
    && forall k: Kind :: k != kind ==> BufferOf(b, k) == BufferOf(was, k)
  }

  lemma WrittenLayerSized(b: LayerBuffer, was: LayerBuffer, shape: Shape, cap: nat, kind: Kind, pos: nat, data: Vec)
    requires LayerWritten(b, was, shape, cap, kind, pos, data) && LayerSized(was, shape, cap)
    ensures LayerSized(b, shape, cap) && DataFits(shape, kind, data)
  {
    hide CellAt, IsBlock, HeadPart;
  }

  lemma WrittenPlace(bufs: seq<LayerBuffer>, layer: nat, b: LayerBuffer, shape: Shape, cap: nat, kind: Kind, pos: nat,
                     data: Vec, p: Place)
    requires Sized(bufs, shape, cap) && layer < |bufs| && LayerWritten(b, bufs[layer], shape, cap, kind, pos, data)
    requires Sized(bufs[layer := b], shape, cap) && DataFits(shape, kind, data) && Within(shape, cap, p)
    ensures CellOf(bufs[layer := b], shape, cap, p) ==
      if p.kind == kind && p.layer == layer && p.pos == pos then PartFor(shape, data, p)
      else CellOf(bufs, shape, cap, p)
  {
    if p.layer == layer && p.kind == kind {
      hide CellAt, IsBlock, Part, BufferOf;
      assert WrittenUpTo(BufferOf(b, kind), BufferOf(bufs[layer], kind), Heads(shape, kind), cap, Dim(shape, kind),
          pos, data, Heads(shape, kind));
    } else if p.layer == layer {
      assert BufferOf(b, p.kind) == BufferOf(bufs[layer], p.kind);
    }
  }

  /** The written layer holds the appended vectors. */
  lemma WrittenCells(was: seq<LayerBuffer>, layer: nat, b: LayerBuffer, shape: Shape, cap: nat, kind: Kind, pos: nat,
                     data: Vec)
    requires Sized(was, shape, cap) && layer < |was| && LayerWritten(b, was[layer], shape, cap, kind, pos, data)
    ensures Sized(was[layer := b], shape, cap) && DataFits(shape, kind, data)
    ensures forall p :: Within(shape, cap, p) ==>
      CellOf(was[layer := b], shape, cap, p) ==
        if p.kind == kind && p.layer == layer && p.pos == pos then PartFor(shape, data, p)
        else CellOf(was, shape, cap, p)
  {
    hide LayerSized, LayerWritten, CellOf, PartFor;
    WrittenLayerSized(b, was[layer], shape, cap, kind, pos, data);
    forall p | Within(shape, cap, p)
      ensures CellOf(was[layer := b], shape, cap, p) ==
        if p.kind == kind && p.layer == layer && p.pos == pos then PartFor(shape, data, p)
        else CellOf(was, shape, cap, p)
    {
      WrittenPlace(was, layer, b, shape, cap, kind, pos, data, p);
    }
  }

  /** Writing one token into the grown cache is the append of KvModel. */
  lemma Appended(v: View, was: seq<LayerBuffer>, layer: nat, b: LayerBuffer, cap: nat, kind: Kind, pos: nat, data: Vec)
    requires layer < v.shape.numLayers && Sized(was, v.shape, cap) && cap == Grown(v, pos + 1).cap
    requires CellsOf(was, v.shape, cap) == Grown(v, pos + 1).cells
    requires LayerWritten(b, was[layer], v.shape, cap, kind, pos, data) && DataFits(v.shape, kind, data)
    ensures Sized(was[layer := b], v.shape, cap)
    ensures View(v.shape, cap, v.seqLen, CellsOf(was[layer := b], v.shape, cap)) == Append(v, kind, layer, pos, data)
  {
    hide LayerSized, LayerWritten, CellOf, PartFor, Sized, GrownCapacity, DataFits, Zero;
    LayerCount(was, v.shape, cap);
    WrittenCells(was, layer, b, v.shape, cap, kind, pos, data);
    var now, want := CellsOf(was[layer := b], v.shape, cap), Append(v, kind, layer, pos, data).cells;
    forall p ensures p in now <==> p in want {
    }
    forall p | p in now ensures now[p] == want[p] {
      assert p in CellsOf(was, v.shape, cap);
    }
  }

  /** With room already there growing changes nothing. */
  lemma AlreadyGrown(bufs: seq<LayerBuffer>, shape: Shape, cap: nat, seqLen: nat, need: nat)
    requires Sized(bufs, shape, cap) && need <= cap
    ensures Grown(View(shape, cap, seqLen, CellsOf(bufs, shape, cap)), need)
         == View(shape, cap, seqLen, CellsOf(bufs, shape, cap))
  {
    hide CellOf, Sized, Zero;
    var v := View(shape, cap, seqLen, CellsOf(bufs, shape, cap));
    assert Grown(v, need).cells == v.cells;
  }

  /** Buffers that keep the old cells and are zero elsewhere hold the grown view. */
  lemma RebasedIsGrown(v: View, bufs: seq<LayerBuffer>, cap: nat, need: nat)
    requires Sized(bufs, v.shape, cap) && cap == GrownCapacity(v.cap, need)
    requires forall p :: Within(v.shape, cap, p) ==>
      CellsOf(bufs, v.shape, cap)[p] == if p in v.cells then v.cells[p] else Zero(Dim(v.shape, p.kind))
    ensures View(v.shape, cap, v.seqLen, CellsOf(bufs, v.shape, cap)) == Grown(v, need)
  {
    hide CellOf, Sized, Zero;
    assert CellsOf(bufs, v.shape, cap) == Grown(v, need).cells;
  }

  lemma LayerBlock(bufs: seq<LayerBuffer>, shape: Shape, cap: nat, layer: nat, kind: Kind)
    requires Sized(bufs, shape, cap) && layer < |bufs|
    ensures |bufs| == shape.numLayers && IsBlock(BufferOf(bufs[layer], kind), Heads(shape, kind), cap, Dim(shape, kind))
  {
    assert LayerSized(bufs[layer], shape, cap);
  }

  lemma LayerCount(bufs: seq<LayerBuffer>, shape: Shape, cap: nat)
    requires Sized(bufs, shape, cap)
    ensures |bufs| == shape.numLayers
  {
  }

  /** What a getter answers. */
  ghost function Lookup(v: View, kind: Kind, layer: int, head: int, pos: int): Option<Vec> {
    if layer < 0 || head < 0 || pos < 0 || Place(kind, layer, head, pos) !in v.cells then None
    else Some(v.cells[Place(kind, layer, head, pos)])
  }

  // ---------------------------------------------------------------- the loops

  /** The single copy of an indexer key. */
  method WriteIndexKey(b: Vec, cap: nat, dim: nat, pos: nat, data: Vec) returns (r: Vec)
    requires IsBlock(b, 1, cap, dim) && pos < cap && |data| == dim
    ensures WrittenUpTo(r, b, 1, cap, dim, pos, data, 1)
  {
    hide WrittenUpTo, Spliced, RowAt;
    assert WrittenUpTo(b, b, 1, cap, dim, pos, data, 0) by { NothingWritten(b, 1, cap, dim, pos, data); }
    OneRow(cap, dim);
    WriteHead(b, b, 1, cap, dim, pos, data, 0);
    assert HeadPart(data, 1, dim, 0) == data;
    r := Spliced(b, pos * dim, data);
  }

  /** The doubling loop: its floor doubles along and never matters after the first step. */
  method NextCapacity(cap: nat, need: nat) returns (newCap: nat)
    requires need > cap
    ensures newCap == GrownCapacity(cap, need)
  {
    newCap := if cap == 0 then 64 else cap;
    var floor := 1024;
    ghost var start := newCap;
    while newCap < need
      invariant Chain(newCap, need) == Chain(start, need)
      invariant floor == 1024 || 1024 <= floor <= 2 * newCap
      invariant floor > 0 && newCap > 0
      decreases need - newCap
    {
      newCap := if newCap * 2 > floor then newCap * 2 else floor;
      floor := floor * 2;
    }
  }

  ghost predicate LayerZero(b: LayerBuffer) {
    forall kind: Kind :: BufferOf(b, kind) == Zero(|BufferOf(b, kind)|)
  }

  lemma ZeroCells(bufs: seq<LayerBuffer>, shape: Shape, cap: nat)
    requires Sized(bufs, shape, cap) && forall l :: 0 <= l < |bufs| ==> LayerZero(bufs[l])
    ensures forall p :: Within(shape, cap, p) ==> CellOf(bufs, shape, cap, p) == Zero(Dim(shape, p.kind))
  {
    hide CellAt, Zero;
    forall p | Within(shape, cap, p) ensures CellOf(bufs, shape, cap, p) == Zero(Dim(shape, p.kind)) {
      assert LayerZero(bufs[p.layer]) && LayerSized(bufs[p.layer], shape, cap);
      ZeroCell(Heads(shape, p.kind), cap, Dim(shape, p.kind), p.head, p.pos);
    }
  }

  function ResizedLayer(b: LayerBuffer, shape: Shape, cap: nat): LayerBuffer {
    LayerBuffer(Resize(b.key, RowAt(cap, shape.qkDim, shape.numHeads)),
                Resize(b.value, RowAt(cap, shape.vDim, shape.numHeads)),
                Resize(b.indexKey, RowAt(cap, shape.indexDim, 1)))
  }

  lemma ResizedLayerFacts(b: LayerBuffer, shape: Shape, cap: nat)
    ensures LayerSized(ResizedLayer(b, shape, cap), shape, cap)
    ensures b == LayerBuffer([], [], []) ==> LayerZero(ResizedLayer(b, shape, cap))
  {
    hide RowAt;
    var r := ResizedLayer(b, shape, cap);
    forall kind: Kind
      ensures IsBlock(BufferOf(r, kind), Heads(shape, kind), cap, Dim(shape, kind))
      ensures b == LayerBuffer([], [], []) ==> BufferOf(r, kind) == Zero(|BufferOf(r, kind)|)
    {
      match kind case Key => case Value => case Indexer =>
    }
  }

  /** The resizing loop of init. */
  method ResizeLayers(was: seq<LayerBuffer>, shape: Shape, cap: nat) returns (bufs: seq<LayerBuffer>)
    ensures Sized(bufs, shape, cap)
    ensures was == [] ==> forall l :: 0 <= l < |bufs| ==> LayerZero(bufs[l])
  {
    hide LayerSized, LayerZero, ResizedLayer;
    var empty := LayerBuffer([], [], []);
    bufs := if |was| >= shape.numLayers then was[..shape.numLayers] else was + seq(shape.numLayers - |was|, _ => empty);
    var l := 0;
    while l < shape.numLayers
      invariant 0 <= l <= shape.numLayers == |bufs|
      invariant forall k :: 0 <= k < l ==> LayerSized(bufs[k], shape, cap)
      invariant was == [] ==> forall k :: 0 <= k < l ==> LayerZero(bufs[k])
      invariant was == [] ==> forall k :: l <= k < |bufs| ==> bufs[k] == empty
    {
      ResizedLayerFacts(bufs[l], shape, cap);
      bufs := bufs[l := ResizedLayer(bufs[l], shape, cap)];
      l := l + 1;
    }
  }

  /** One layer's buffers moved to the larger capacity. */
  method RebaseLayer(buf: LayerBuffer, shape: Shape, oldCap: nat, cap: nat) returns (r: LayerBuffer)
    requires LayerSized(buf, shape, oldCap) && oldCap <= cap
    ensures LayerRebased(r, buf, shape, oldCap, cap)
  {
    hide RebasedUpTo, IsBlock, Resize, Row;
    assert IsBlock(BufferOf(buf, Key), Heads(shape, Key), oldCap, Dim(shape, Key));
    assert IsBlock(BufferOf(buf, Value), Heads(shape, Value), oldCap, Dim(shape, Value));
    assert IsBlock(BufferOf(buf, Indexer), Heads(shape, Indexer), oldCap, Dim(shape, Indexer));
    var key := Rebase(buf.key, shape.numHeads, Row(oldCap, shape.qkDim), Row(cap, shape.qkDim), oldCap, cap,
        shape.qkDim);
    var value := Rebase(buf.value, shape.numHeads, Row(oldCap, shape.vDim), Row(cap, shape.vDim), oldCap, cap,
        shape.vDim);
    ResizeRebases(buf.indexKey, oldCap, cap, shape.indexDim);
    r := LayerBuffer(key, value, Resize(buf.indexKey, Row(cap, shape.indexDim)));
    forall kind: Kind
      ensures RebasedUpTo(BufferOf(r, kind), BufferOf(buf, kind), Heads(shape, kind), oldCap, cap, Dim(shape, kind),
          Heads(shape, kind))
    {
      match kind case Key => case Value => case Indexer =>
    }
  }

  class KVCache {
    var numLayers: nat
    var numHeads: nat
    var qkTotal: nat
    var vDim: nat
    var indexDim: nat
    var maxSeqLen: nat
    var seqLen: nat
    var headStride: nat
    var layerIndexStride: nat
    var layerBuffers: seq<LayerBuffer>

    function ShapeOf(): Shape
      reads this
    {
      Shape(numLayers, numHeads, qkTotal, vDim, indexDim)
    }

    /** The strides agree with the capacity and every buffer has its size. */
    ghost predicate Valid()
      reads this
    {
      headStride == Row(maxSeqLen, qkTotal) && layerIndexStride == indexDim && Sized(layerBuffers, ShapeOf(), maxSeqLen)
    }

    ghost function Contents(): View
      requires Valid()
      reads this
    {
      View(ShapeOf(), maxSeqLen, seqLen, CellsOf(layerBuffers, ShapeOf(), maxSeqLen))
    }

    constructor ()
      ensures Valid() && maxSeqLen == 0 && seqLen == 0 && layerBuffers == []
    {
      numLayers, numHeads, qkTotal, vDim, indexDim := 0, 0, 0, 0, 0;
      maxSeqLen, seqLen, headStride, layerIndexStride := 0, 0, 0, 0;
      layerBuffers := [];
    }

    /** Fresh buffers of the given capacity, all zero; buffers of an earlier
        initialisation are cut or extended as they are. */
    method Init(numLayers: nat, numHeads: nat, qkHeadDim: nat, vHeadDim: nat, indexHeadDim: nat, maxSeqLen: nat)
      modifies this
      ensures Valid() && ShapeOf() == Shape(numLayers, numHeads, qkHeadDim, vHeadDim, indexHeadDim)
      ensures this.maxSeqLen == maxSeqLen && seqLen == 0
      ensures old(layerBuffers) == [] ==> forall p :: p in Contents().cells ==>
        Contents().cells[p] == Zero(Dim(ShapeOf(), p.kind))
    {
      this.numLayers, this.numHeads, qkTotal, vDim, indexDim := numLayers, numHeads, qkHeadDim, vHeadDim, indexHeadDim;
      this.maxSeqLen, seqLen := maxSeqLen, 0;
      headStride, layerIndexStride := Row(maxSeqLen, qkHeadDim), indexHeadDim;
      var bufs := ResizeLayers(layerBuffers, ShapeOf(), maxSeqLen);
      if old(layerBuffers) == [] { ZeroCells(bufs, ShapeOf(), maxSeqLen); }
      layerBuffers := bufs;
    }

    /** Grow-only reservation. */
    method Reserve(tokenCount: int)
      requires Valid()
      modifies this
      ensures Valid() && Contents() == KvModel.Reserve(old(Contents()), tokenCount)
    {
      hide Sized, CellsOf, Row, Grown;
      if tokenCount <= maxSeqLen {
        return;
      }
      GrowTo(tokenCount - 1);
    }

    /** Room for position tokenPos, with every layer rebased to the new stride. */
    method GrowTo(tokenPos: nat)
      requires Valid()
      modifies this
      ensures Valid() && Contents() == Grown(old(Contents()), tokenPos + 1)
      ensures ShapeOf() == old(ShapeOf()) && seqLen == old(seqLen) && maxSeqLen > tokenPos
    {
      hide Sized, CellsOf, Within, Zero;
      ghost var was := Contents();
      var need := tokenPos + 1;
      if need <= maxSeqLen {
        AlreadyGrown(layerBuffers, ShapeOf(), maxSeqLen, seqLen, need);
        return;
      }
      var newCap := NextCapacity(maxSeqLen, need);
      RebaseAll(newCap);
      RebasedIsGrown(was, layerBuffers, newCap, need);
    }

    method RebaseAll(newCap: nat)
      requires Valid() && maxSeqLen <= newCap
      modifies this
      ensures Valid() && ShapeOf() == old(ShapeOf()) && maxSeqLen == newCap && seqLen == old(seqLen)
      ensures forall p :: Within(ShapeOf(), newCap, p) ==>
        Contents().cells[p] == if p in old(Contents().cells) then old(Contents().cells)[p]
                               else Zero(Dim(ShapeOf(), p.kind))
    {
      hide LayerSized, LayerRebased, Row, CellOf;
      var shape, oldCap := ShapeOf(), maxSeqLen;
      ghost var was := layerBuffers;
      var l := 0;
      while l < numLayers
        invariant 0 <= l <= numLayers == |layerBuffers| == |was| && ShapeOf() == shape && maxSeqLen == oldCap
            && seqLen == old(seqLen)
        invariant layerIndexStride == indexDim
        invariant forall k :: 0 <= k < l ==> LayerRebased(layerBuffers[k], was[k], shape, oldCap, newCap)
        invariant forall k :: l <= k < numLayers ==> layerBuffers[k] == was[k]
      {
        var r := RebaseLayer(layerBuffers[l], shape, oldCap, newCap);
        layerBuffers := layerBuffers[l := r];
        l := l + 1;
      }
      headStride := Row(newCap, qkTotal);
      maxSeqLen := newCap;
      RebasedCells(layerBuffers, was, shape, oldCap, newCap);
    }

    method AppendKey(layer: int, tokenPos: int, key: Vec)
      requires Valid() && DataFits(ShapeOf(), Key, key)
      modifies this
      ensures Valid() && Contents() == Append(old(Contents()), Key, layer, tokenPos, key)
      ensures 0 <= layer < numLayers && tokenPos >= 0 ==> HoldsToken(Contents(), Key, layer, tokenPos, key)
    {
      hide Sized, CellsOf, IsBlock, WrittenUpTo, RowAt, Row, Grown, GrownCapacity, HoldsToken;
      ghost var v := Contents();
      if layer < 0 || layer >= numLayers || tokenPos < 0 {
        return;
      }
      GrowTo(tokenPos);
      ghost var was := layerBuffers;
      LayerCount(was, ShapeOf(), maxSeqLen);
      LayerBlock(was, ShapeOf(), maxSeqLen, layer, Key);
      var written := WriteToken(layerBuffers[layer].key, numHeads, headStride, qkTotal, tokenPos, key, maxSeqLen);
      layerBuffers := layerBuffers[layer := layerBuffers[layer].(key := written)];
      Appended(v, was, layer, layerBuffers[layer], maxSeqLen, Key, tokenPos, key);
      AppendHolds(v, Key, layer, tokenPos, key);
    }

    method AppendValue(layer: int, tokenPos: int, value: Vec)
      requires Valid() && DataFits(ShapeOf(), Value, value)
      modifies this
      ensures Valid() && Contents() == Append(old(Contents()), Value, layer, tokenPos, value)
      ensures 0 <= layer < numLayers && tokenPos >= 0 ==> HoldsToken(Contents(), Value, layer, tokenPos, value)
    {
      hide Sized, CellsOf, IsBlock, WrittenUpTo, RowAt, Row, Grown, GrownCapacity, HoldsToken;
      ghost var v := Contents();
      if layer < 0 || layer >= numLayers || tokenPos < 0 {
        return;
      }
      GrowTo(tokenPos);
      ghost var was := layerBuffers;
      LayerCount(was, ShapeOf(), maxSeqLen);
      LayerBlock(was, ShapeOf(), maxSeqLen, layer, Value);
      var written := WriteToken(layerBuffers[layer].value, numHeads, Row(maxSeqLen, vDim), vDim, tokenPos, value,
          maxSeqLen);
      layerBuffers := layerBuffers[layer := layerBuffers[layer].(value := written)];
      Appended(v, was, layer, layerBuffers[layer], maxSeqLen, Value, tokenPos, value);
      AppendHolds(v, Value, layer, tokenPos, value);
    }

    method AppendIndexKey(layer: int, tokenPos: int, indexKey: Vec)
      requires Valid() && DataFits(ShapeOf(), Indexer, indexKey)
      modifies this
      ensures Valid() && Contents() == Append(old(Contents()), Indexer, layer, tokenPos, indexKey)
      ensures 0 <= layer < numLayers && tokenPos >= 0 ==> HoldsToken(Contents(), Indexer, layer, tokenPos, indexKey)
    {
      hide Sized, CellsOf, IsBlock, WrittenUpTo, RowAt, Row, Grown, GrownCapacity, HoldsToken;
      ghost var v := Contents();
      if layer < 0 || layer >= numLayers || tokenPos < 0 {
        return;
      }
      GrowTo(tokenPos);
      ghost var was := layerBuffers;
      LayerCount(was, ShapeOf(), maxSeqLen);
      LayerBlock(was, ShapeOf(), maxSeqLen, layer, Indexer);
      var written := WriteIndexKey(layerBuffers[layer].indexKey, maxSeqLen, layerIndexStride, tokenPos, indexKey);
      layerBuffers := layerBuffers[layer := layerBuffers[layer].(indexKey := written)];
      Appended(v, was, layer, layerBuffers[layer], maxSeqLen, Indexer, tokenPos, indexKey);
      AppendHolds(v, Indexer, layer, tokenPos, indexKey);
    }

    /** The cached key vector, or null outside the range. */
    method GetKey(layer: int, head: int, tokenPos: int) returns (r: Option<Vec>)
      requires Valid()
      ensures r == Lookup(Contents(), Key, layer, head, tokenPos)
    {
      if layer < 0 || layer >= numLayers || head < 0 || head >= numHeads || tokenPos < 0 || tokenPos >= maxSeqLen {
        return None;
      }
      LayerBlock(layerBuffers, ShapeOf(), maxSeqLen, layer, Key);
      OffsetFits(numHeads, maxSeqLen, qkTotal, head, tokenPos);
      var at := head * headStride + tokenPos * qkTotal;
      return Some(layerBuffers[layer].key[at..at + qkTotal]);
    }

    method GetValue(layer: int, head: int, tokenPos: int) returns (r: Option<Vec>)
      requires Valid()
      ensures r == Lookup(Contents(), Value, layer, head, tokenPos)
    {
      if layer < 0 || layer >= numLayers || head < 0 || head >= numHeads || tokenPos < 0 || tokenPos >= maxSeqLen {
        return None;
      }
      LayerBlock(layerBuffers, ShapeOf(), maxSeqLen, layer, Value);
      OffsetFits(numHeads, maxSeqLen, vDim, head, tokenPos);
      var at := RowAt(maxSeqLen, vDim, head) + tokenPos * vDim;
      return Some(layerBuffers[layer].value[at..at + vDim]);
    }

    method GetIndexKey(layer: int, tokenPos: int) returns (r: Option<Vec>)
      requires Valid()
      ensures r == Lookup(Contents(), Indexer, layer, 0, tokenPos)
    {
      if layer < 0 || layer >= numLayers || tokenPos < 0 || tokenPos >= maxSeqLen {
        return None;
      }
      LayerBlock(layerBuffers, ShapeOf(), maxSeqLen, layer, Indexer);
      OffsetFits(1, maxSeqLen, indexDim, 0, tokenPos);
      var at := tokenPos * layerIndexStride;
      return Some(layerBuffers[layer].indexKey[at..at + layerIndexStride]);
    }

    method Advance()
      requires Valid()
      modifies this
      ensures Valid() && Contents() == KvModel.Advance(old(Contents()))
    {
      if seqLen < maxSeqLen {
        seqLen := seqLen + 1;
      }
    }

    /** Only the counter is cleared; every cell keeps its contents. */
    method Clear()
      requires Valid()
      modifies this
      ensures Valid() && Contents() == KvModel.Clear(old(Contents()))
    {
      seqLen := 0;
    }
  }
}
