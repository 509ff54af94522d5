/** The key/value cache as a map from (kind, layer, head, position) to vectors:
    what the strided buffers of src/engine/kv_cache.cpp stand for, and what
    growing, appending and clearing do to it. */
module KvModel {
  import opened Bytes

  type Float = real
  type Vec = seq<Float>

  datatype Shape = Shape(numLayers: nat, numHeads: nat, qkDim: nat, vDim: nat, indexDim: nat)

  datatype Kind = Key | Value | Indexer

  /** One cell; the indexer keys have a single head, head 0. */
  datatype Place = Place(kind: Kind, layer: nat, head: nat, pos: nat)

  function Heads(shape: Shape, kind: Kind): nat {
    if kind.Indexer? then 1 else shape.numHeads
  }

  function Dim(shape: Shape, kind: Kind): nat {
    match kind case Key => shape.qkDim case Value => shape.vDim case Indexer => shape.indexDim
  }

  predicate Within(shape: Shape, cap: nat, p: Place) {
    p.layer < shape.numLayers && p.head < Heads(shape, p.kind) && p.pos < cap
  }

  /** The cache: every cell below the capacity, and the number of tokens it counts. */
  datatype View = View(shape: Shape, cap: nat, seqLen: nat, cells: imap<Place, Vec>)

  ghost predicate Full(v: View) {
    && (forall p :: p in v.cells <==> Within(v.shape, v.cap, p))
    && (forall p :: p in v.cells ==> |v.cells[p]| == Dim(v.shape, p.kind))
  }

  function Zero(n: nat): Vec {
    seq(n, _ => 0.0)
  }

  // ---------------------------------------------------------------- growth arithmetic

  /** One doubling, with the minimum step of 1024 tokens. */
  function Doubled(c: nat): nat {
    if 2 * c > 1024 then 2 * c else 1024
  }

  function Chain(c: nat, need: nat): (r: nat)
    ensures r >= need && r >= c
    decreases need - c
  {
    if c >= need then c else Chain(Doubled(c), need)
  }

  /** The capacity after making room for need tokens. */
  function GrownCapacity(cap: nat, need: nat): (r: nat)
    ensures r >= need && r >= cap
  {
    if need <= cap then cap else Chain(if cap == 0 then 64 else cap, need)
  }

  lemma {:induction false} ChainBounds(c: nat, need: nat)
    requires c < need
    ensures Chain(c, need) <= (if 2 * need > 1024 then 2 * need else 1024)
    ensures Chain(c, need) >= 2 * c
    decreases need - c
  {
    if Doubled(c) < need { ChainBounds(Doubled(c), need); }
  }

  /** Growing covers the need, at most doubles it (or takes the minimum step),
      and at least doubles what was there. */
  lemma GrowthBounds(cap: nat, need: nat)
    requires need > cap
    ensures need <= GrownCapacity(cap, need) <= (if 2 * need > 1024 then 2 * need else 1024)
    ensures GrownCapacity(cap, need) >= 2 * cap
  {
    var c := if cap == 0 then 64 else cap;
    if c < need { ChainBounds(c, need); }
  }

  lemma {:induction false} ChainSplits(c: nat, a: nat, b: nat)
    requires a <= b
    ensures Chain(Chain(c, a), b) == Chain(c, b)
    decreases a - c
  {
    if c < a { ChainSplits(Doubled(c), a, b); }
  }

  /** It does not matter in which steps room is made: growing for a and then for
      b ends where growing for the larger ends. */
  lemma GrowthPathIndependent(cap: nat, a: nat, b: nat)
    ensures GrownCapacity(GrownCapacity(cap, a), b) == GrownCapacity(cap, if a > b then a else b)
  {
    var c := if cap == 0 then 64 else cap;
    if cap < a && a <= b {
      ChainSplits(c, a, b);
    } else if cap < a {
      assert GrownCapacity(cap, a) >= a > b;
    }
  }

  /** The capacities copied while serving the needs in turn. */
  function Copied(cap: nat, needs: seq<nat>): nat
    decreases |needs|
  {
    if needs == [] then 0
    else (if needs[0] > cap then cap else 0) + Copied(GrownCapacity(cap, needs[0]), needs[1..])
  }

  function CapacityAfter(cap: nat, needs: seq<nat>): nat
    decreases |needs|
  {
    if needs == [] then cap else CapacityAfter(GrownCapacity(cap, needs[0]), needs[1..])
  }

  /** All copying together moves no more tokens than fit in the end. */
  lemma {:induction false} CopyingIsLinear(cap: nat, needs: seq<nat>)
    ensures Copied(cap, needs) + cap <= CapacityAfter(cap, needs)
    decreases |needs|
  {
    if needs != [] {
      CopyingIsLinear(GrownCapacity(cap, needs[0]), needs[1..]);
      if needs[0] > cap { GrowthBounds(cap, needs[0]); }
    }
  }

  // ---------------------------------------------------------------- operations

  /** Room for need tokens: old cells stay, new cells are zero. */
  ghost function Grown(v: View, need: nat): View {
    var cap := GrownCapacity(v.cap, need);
    v.(cap := cap,
       cells := imap p | Within(v.shape, cap, p) :: if p in v.cells then v.cells[p] else Zero(Dim(v.shape, p.kind)))
  }

  /** r holds the floats of data from index h * dim on, dim of them. */
  ghost predicate IsPart(r: Vec, data: Vec, dim: nat, h: nat) {
    && |r| == dim && h * dim + dim <= |data|
    && forall i :: 0 <= i < dim ==> r[i] == data[h * dim + i]
  }

  /** Head h's part of the data of one token. */
  function Part(data: Vec, dim: nat, h: nat): (r: Vec)
    requires (h + 1) * dim <= |data|
    ensures IsPart(r, data, dim, h)
  {
    assert h * dim + dim == (h + 1) * dim;
    data[h * dim..h * dim + dim]
  }

  predicate DataFits(shape: Shape, kind: Kind, data: Vec) {
    |data| == Heads(shape, kind) * Dim(shape, kind)
  }

  /** What an append writes to cell p. */
  function PartFor(shape: Shape, data: Vec, p: Place): (r: Vec)
    requires DataFits(shape, p.kind, data) && p.head < Heads(shape, p.kind)
    ensures IsPart(r, data, Dim(shape, p.kind), p.head)
  {
    PartFits(p.head, Heads(shape, p.kind), Dim(shape, p.kind));
    Part(data, Dim(shape, p.kind), p.head)
  }

  lemma PartFits(h: nat, heads: nat, dim: nat)
    requires h < heads
    ensures (h + 1) * dim <= heads * dim
  {
    assert (heads - (h + 1)) * dim >= 0;
  }

  /** Append at an explicit position: out-of-range layers and positions are
      ignored, otherwise the cache grows as needed and one token's cells change. */
  ghost function Append(v: View, kind: Kind, layer: int, pos: int, data: Vec): View
    requires DataFits(v.shape, kind, data)
  {
    if layer < 0 || layer >= v.shape.numLayers || pos < 0 then v
    else
      var g := Grown(v, pos + 1);
      g.(cells := imap p | Within(g.shape, g.cap, p) ::
           if p.kind == kind && p.layer == layer && p.pos == pos then PartFor(v.shape, data, p)
           else if p in g.cells then g.cells[p] else [])
  }

  /** The cells of one token hold the data given for it, head by head. */
  ghost predicate HoldsToken(v: View, kind: Kind, layer: nat, pos: nat, data: Vec) {
    forall h: nat :: h < Heads(v.shape, kind) ==>
      var p := Place(kind, layer, h, pos);
      p in v.cells && IsPart(v.cells[p], data, Dim(v.shape, kind), h)
  }

  /** An append in range stores float h * dim + i of the data as float i of head h. */
  lemma AppendHolds(v: View, kind: Kind, layer: int, pos: int, data: Vec)
    requires DataFits(v.shape, kind, data)
    ensures 0 <= layer < v.shape.numLayers && pos >= 0 ==>
      HoldsToken(Append(v, kind, layer, pos, data), kind, layer, pos, data)
  {
    hide DataFits, Dim, Zero, IsPart, GrownCapacity;
  }

  /** The data of a token from head h on, as its parts joined. */
  function Joined(data: Vec, heads: nat, dim: nat, h: nat): (r: Vec)
    requires |data| == heads * dim && h <= heads
    decreases heads - h
  {
    if h == heads then []
    else
      PartFits(h, heads, dim);
      Part(data, dim, h) + Joined(data, heads, dim, h + 1)
  }

  /** No float of the data is lost or moved: the parts of all heads joined are the data. */
  lemma {:induction false} PartsJoin(data: Vec, heads: nat, dim: nat, h: nat)
    requires |data| == heads * dim && h <= heads
    ensures h * dim <= |data| && Joined(data, heads, dim, h) == data[h * dim..]
    decreases heads - h
  {
    if h < heads {
      PartFits(h, heads, dim);
      assert (h + 1) * dim == h * dim + dim;
      PartsJoin(data, heads, dim, h + 1);
    }
  }

  ghost function Reserve(v: View, tokenCount: int): View {
    if tokenCount <= v.cap then v else Grown(v, tokenCount)
  }

  function Advance(v: View): View {
    if v.seqLen < v.cap then v.(seqLen := v.seqLen + 1) else v
  }

  function Clear(v: View): View {
    v.(seqLen := 0)
  }

  // ---------------------------------------------------------------- last write wins

  datatype Op = AppendOp(kind: Kind, layer: int, pos: int, data: Vec) | ReserveOp(tokenCount: int) | AdvanceOp | ClearOp

  predicate OpFits(shape: Shape, op: Op) {
    op.AppendOp? ==> DataFits(shape, op.kind, op.data)
  }

  ghost function Apply(v: View, op: Op): (w: View)
    requires OpFits(v.shape, op)
    ensures w.shape == v.shape
  {
    match op
    case AppendOp(kind, layer, pos, data) => Append(v, kind, layer, pos, data)
    case ReserveOp(n) => Reserve(v, n)
    case AdvanceOp => Advance(v)
    case ClearOp => Clear(v)
  }

  ghost function Run(v: View, ops: seq<Op>): (w: View)
    requires forall i :: 0 <= i < |ops| ==> OpFits(v.shape, ops[i])
    ensures w.shape == v.shape
  {
    if ops == [] then v else Apply(Run(v, ops[..|ops| - 1]), ops[|ops| - 1])
  }

  /** The operation writes cell p. */
  predicate Writes(op: Op, p: Place) {
    op.AppendOp? && op.kind == p.kind && op.layer == p.layer && op.pos == p.pos
  }

  /** The vector most recently appended at p. */
  function LastAppended(shape: Shape, ops: seq<Op>, p: Place): Option<Vec>
    requires p.head < Heads(shape, p.kind) && forall i :: 0 <= i < |ops| ==> OpFits(shape, ops[i])
  {
    if ops == [] then None
    else if Writes(ops[|ops| - 1], p) then
      assert OpFits(shape, ops[|ops| - 1]);
      Some(PartFor(shape, ops[|ops| - 1].data, p))
    else LastAppended(shape, ops[..|ops| - 1], p)
  }

  lemma GrownFull(v: View, need: nat)
    requires Full(v)
    ensures Full(Grown(v, need)) && Grown(v, need).cap >= v.cap && Grown(v, need).shape == v.shape
  {
    hide GrownCapacity, Dim, Heads;
  }

  lemma AppendFull(v: View, kind: Kind, layer: int, pos: int, data: Vec)
    requires Full(v) && DataFits(v.shape, kind, data)
    ensures Full(Append(v, kind, layer, pos, data)) && Append(v, kind, layer, pos, data).cap >= v.cap
  {
    hide Grown, Dim, Heads, PartFor;
    if pos >= 0 {
      GrownFull(v, pos + 1);
    }
  }

  lemma ApplyKeepsFull(v: View, op: Op)
    requires Full(v) && OpFits(v.shape, op)
    ensures Full(Apply(v, op)) && Apply(v, op).cap >= v.cap
  {
    hide Append, Grown, Dim, Heads;
    match op {
      case AppendOp(kind, layer, pos, data) => AppendFull(v, kind, layer, pos, data);
      case ReserveOp(n) => if n > v.cap { GrownFull(v, n); }
      case AdvanceOp =>
      case ClearOp =>
    }
  }

  lemma ApplyCell(v: View, op: Op, p: Place)
    requires Full(v) && OpFits(v.shape, op) && Within(v.shape, Apply(v, op).cap, p)
    ensures p in Apply(v, op).cells
    ensures Apply(v, op).cells[p] ==
      if Writes(op, p) then PartFor(v.shape, op.data, p)
      else if p in v.cells then v.cells[p] else Zero(Dim(v.shape, p.kind))
  {
    hide PartFor, GrownCapacity;
  }

  /** Operation i is the last one that writes p. */
  ghost predicate LastWriter(ops: seq<Op>, p: Place, i: nat) {
    i < |ops| && Writes(ops[i], p) && forall j :: i < j < |ops| ==> !Writes(ops[j], p)
  }

  lemma {:induction false} LastWriterAppended(shape: Shape, ops: seq<Op>, p: Place, i: nat)
    requires p.head < Heads(shape, p.kind) && forall j :: 0 <= j < |ops| ==> OpFits(shape, ops[j])
    requires LastWriter(ops, p, i)
    ensures DataFits(shape, p.kind, ops[i].data)
    ensures LastAppended(shape, ops, p) == Some(PartFor(shape, ops[i].data, p))
  {
    hide PartFor, DataFits, Heads;
    assert OpFits(shape, ops[i]);
    if i < |ops| - 1 {
      LastWriterAppended(shape, ops[..|ops| - 1], p, i);
    }
  }

  lemma {:induction false} NoWriterAppended(shape: Shape, ops: seq<Op>, p: Place)
    requires p.head < Heads(shape, p.kind) && forall j :: 0 <= j < |ops| ==> OpFits(shape, ops[j])
    requires forall j :: 0 <= j < |ops| ==> !Writes(ops[j], p)
    ensures LastAppended(shape, ops, p) == None
  {
    if ops != [] {
      NoWriterAppended(shape, ops[..|ops| - 1], p);
    }
  }

  /** Whatever the order of appends, reservations and clears, each cell holds its
      head's floats of the last data appended at its position; never written, it
      is as it was at the start, or zero. */
  lemma LastWriteWins(v: View, ops: seq<Op>, p: Place)
    requires Full(v) && forall i :: 0 <= i < |ops| ==> OpFits(v.shape, ops[i])
    requires Within(v.shape, Run(v, ops).cap, p)
    ensures Full(Run(v, ops)) && p in Run(v, ops).cells
    ensures forall i: nat :: LastWriter(ops, p, i) ==>
      IsPart(Run(v, ops).cells[p], ops[i].data, Dim(v.shape, p.kind), p.head)
    ensures (forall i :: 0 <= i < |ops| ==> !Writes(ops[i], p)) ==>
      Run(v, ops).cells[p] == if p in v.cells then v.cells[p] else Zero(Dim(v.shape, p.kind))
  {
    hide PartFor, Apply, Run, LastAppended, IsPart, Zero, Full, OpFits;
    CellIsLastAppended(v, ops, p);
    forall i: nat | LastWriter(ops, p, i)
      ensures IsPart(Run(v, ops).cells[p], ops[i].data, Dim(v.shape, p.kind), p.head)
    {
      LastWriterAppended(v.shape, ops, p, i);
    }
    if forall i :: 0 <= i < |ops| ==> !Writes(ops[i], p) {
      NoWriterAppended(v.shape, ops, p);
    }
  }

  lemma {:induction false} CellIsLastAppended(v: View, ops: seq<Op>, p: Place)
    requires Full(v) && forall i :: 0 <= i < |ops| ==> OpFits(v.shape, ops[i])
    requires Within(v.shape, Run(v, ops).cap, p)
    ensures Full(Run(v, ops)) && p in Run(v, ops).cells
    ensures Run(v, ops).cells[p] ==
      match LastAppended(v.shape, ops, p)
      case Some(x) => x
      case None => if p in v.cells then v.cells[p] else Zero(Dim(v.shape, p.kind))
  {
    hide PartFor, Apply;
    RunKeepsFull(v, ops);
    if ops != [] {
      var front, op := ops[..|ops| - 1], ops[|ops| - 1];
      RunKeepsFull(v, front);
      var w := Run(v, front);
      ApplyCell(w, op, p);
      if Within(v.shape, w.cap, p) {
        CellIsLastAppended(v, front, p);
      } else if !Writes(op, p) {
        NeverWritten(v, front, p);
        RunGrows(v, front);
      }
    }
  }

  lemma {:induction false} RunKeepsFull(v: View, ops: seq<Op>)
    requires Full(v) && forall i :: 0 <= i < |ops| ==> OpFits(v.shape, ops[i])
    ensures Full(Run(v, ops))
  {
    hide Full, Apply;
    if ops != [] {
      RunKeepsFull(v, ops[..|ops| - 1]);
      ApplyKeepsFull(Run(v, ops[..|ops| - 1]), ops[|ops| - 1]);
    }
  }

  lemma {:induction false} RunGrows(v: View, ops: seq<Op>)
    requires Full(v) && forall i :: 0 <= i < |ops| ==> OpFits(v.shape, ops[i])
    ensures Run(v, ops).cap >= v.cap
  {
    hide Full, Apply;
    if ops != [] {
      var front := ops[..|ops| - 1];
      RunGrows(v, front);
      RunKeepsFull(v, front);
      ApplyKeepsFull(Run(v, front), ops[|ops| - 1]);
    }
  }

  /** A cell beyond the capacity has never been appended to. */
  lemma {:induction false} NeverWritten(v: View, ops: seq<Op>, p: Place)
    requires Full(v) && forall i :: 0 <= i < |ops| ==> OpFits(v.shape, ops[i])
    requires p.layer < v.shape.numLayers && p.head < Heads(v.shape, p.kind) && p.pos >= Run(v, ops).cap
    ensures LastAppended(v.shape, ops, p) == None
  {
    hide Full;
    if ops != [] {
      var front, op := ops[..|ops| - 1], ops[|ops| - 1];
      RunKeepsFull(v, front);
      ApplyKeepsFull(Run(v, front), op);
      NeverWritten(v, front, p);
      assert !Writes(op, p);
    }
  }
}
