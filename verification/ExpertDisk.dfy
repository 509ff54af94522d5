/** Where expert weights live on disk, and the bytes a key stands for: what the
    synchronous loader copies, projection after projection. */
module ExpertDisk {
  import opened Bytes
  import opened LruModel

  const SHARED_GATE_SLOT: nat := 0xFF00
  const SHARED_UP_SLOT: nat := 0xFF01
  const SHARED_DOWN_SLOT: nat := 0xFF02

  type Shard = string
  type Disk = map<Shard, seq<byte>>

  /** A tensor's place: shard file, first byte, size. */
  datatype Loc = Loc(shard: Shard, off: nat, size: nat)

  datatype Projections = Projections(gate: Loc, up: Loc, down: Loc)

  datatype Index = Index(numLayers: nat, numExperts: nat, routed: seq<seq<Projections>>, shared: seq<Projections>)

  ghost predicate InBounds(disk: Disk, loc: Loc) {
    loc.size > 0 ==> loc.shard in disk && loc.off + loc.size <= |disk[loc.shard]|
  }

  ghost predicate AllInBounds(disk: Disk, p: Projections) {
    InBounds(disk, p.gate) && InBounds(disk, p.up) && InBounds(disk, p.down)
  }

  /** The tables are complete, expert ids stay below the shared slots, tensors lie inside their files. */
  ghost predicate GoodIndex(ix: Index, disk: Disk) {
    && |ix.routed| == ix.numLayers && |ix.shared| == ix.numLayers && ix.numExperts <= SHARED_GATE_SLOT
    && (forall l :: 0 <= l < ix.numLayers ==> |ix.routed[l]| == ix.numExperts && AllInBounds(disk, ix.shared[l]))
    && (forall l, e :: 0 <= l < ix.numLayers && 0 <= e < ix.numExperts ==> AllInBounds(disk, ix.routed[l][e]))
  }

  /** The projections staged for a key, in order; none for a key that names nothing. */
  function Parts(ix: Index, key: ExpertKey): seq<Loc> {
    if key.layer >= ix.numLayers || key.layer >= |ix.routed| || key.layer >= |ix.shared| then []
    else if key.expertId == SHARED_GATE_SLOT then [ix.shared[key.layer].gate]
    else if key.expertId == SHARED_UP_SLOT then [ix.shared[key.layer].up]
    else if key.expertId == SHARED_DOWN_SLOT then [ix.shared[key.layer].down]
    else if key.expertId >= ix.numExperts || key.expertId >= |ix.routed[key.layer]| then []
    else
      var p := ix.routed[key.layer][key.expertId];
      [p.gate, p.up, p.down]
  }

  lemma PartsInBounds(ix: Index, disk: Disk, key: ExpertKey)
    requires GoodIndex(ix, disk)
    ensures PartsOnDisk(disk, Parts(ix, key))
  {
    if key.layer < ix.numLayers {
      assert AllInBounds(disk, ix.shared[key.layer]);
      if key.expertId < ix.numExperts {
        assert AllInBounds(disk, ix.routed[key.layer][key.expertId]);
      }
    }
  }

  ghost predicate PartsOnDisk(disk: Disk, parts: seq<Loc>) {
    forall p :: 0 <= p < |parts| ==> InBounds(disk, parts[p])
  }

  function TotalSize(parts: seq<Loc>): nat {
    if parts == [] then 0 else parts[0].size + TotalSize(parts[1..])
  }

  /** The offset of part p in the assembled block. */
  function OffsetOf(parts: seq<Loc>, p: nat): nat
    requires p <= |parts|
  {
    TotalSize(parts[..p])
  }

  function PartBytes(disk: Disk, loc: Loc): seq<byte>
    requires InBounds(disk, loc)
  {
    if loc.size == 0 then [] else disk[loc.shard][loc.off..loc.off + loc.size]
  }

  function Assembled(disk: Disk, parts: seq<Loc>): (b: seq<byte>)
    requires PartsOnDisk(disk, parts)
    ensures |b| == TotalSize(parts)
  {
    if parts == [] then []
    else
      assert InBounds(disk, parts[0]);
      assert forall p :: 0 <= p < |parts[1..]| ==> parts[1..][p] == parts[p + 1];
      PartBytes(disk, parts[0]) + Assembled(disk, parts[1..])
  }

  /** The bytes of a key: the specification every serving path must meet. */
  function KeyBytes(ix: Index, disk: Disk, key: ExpertKey): seq<byte>
    requires GoodIndex(ix, disk)
  {
    PartsInBounds(ix, disk, key);
    Assembled(disk, Parts(ix, key))
  }

  lemma AssembledThree(disk: Disk, a: Loc, b: Loc, c: Loc)
    requires InBounds(disk, a) && InBounds(disk, b) && InBounds(disk, c)
    ensures PartsOnDisk(disk, [a, b, c])
    ensures Assembled(disk, [a, b, c]) == PartBytes(disk, a) + PartBytes(disk, b) + PartBytes(disk, c)
  {
    AssembledOne(disk, c);
    assert [b, c][1..] == [c] && [a, b, c][1..] == [b, c];
    assert Assembled(disk, [b, c]) == PartBytes(disk, b) + Assembled(disk, [c]);
  }

  /** A routed expert's block is its gate, up and down projections, in this order. */
  lemma RoutedBlock(ix: Index, disk: Disk, layer: nat, expertId: nat)
    requires GoodIndex(ix, disk) && layer < ix.numLayers && expertId < ix.numExperts
    ensures var p := ix.routed[layer][expertId];
      && AllInBounds(disk, p)
      && KeyBytes(ix, disk, ExpertKey(layer, expertId))
           == PartBytes(disk, p.gate) + PartBytes(disk, p.up) + PartBytes(disk, p.down)
  {
    var p := ix.routed[layer][expertId];
    assert AllInBounds(disk, p);
    assert Parts(ix, ExpertKey(layer, expertId)) == [p.gate, p.up, p.down];
    AssembledThree(disk, p.gate, p.up, p.down);
    hide Assembled, PartBytes, Parts;
  }

  /** A shared slot's block is its one projection; keys that name nothing have none. */
  lemma SharedBlock(ix: Index, disk: Disk, layer: nat, slot: nat)
    requires GoodIndex(ix, disk) && layer < ix.numLayers && slot >= ix.numExperts
    ensures AllInBounds(disk, ix.shared[layer])
    ensures KeyBytes(ix, disk, ExpertKey(layer, slot)) ==
      if slot == SHARED_GATE_SLOT then PartBytes(disk, ix.shared[layer].gate)
      else if slot == SHARED_UP_SLOT then PartBytes(disk, ix.shared[layer].up)
      else if slot == SHARED_DOWN_SLOT then PartBytes(disk, ix.shared[layer].down)
      else []
  {
    var p := ix.shared[layer];
    assert AllInBounds(disk, p);
    hide Assembled, PartBytes;
    AssembledOne(disk, p.gate);
    AssembledOne(disk, p.up);
    AssembledOne(disk, p.down);
    AssembledNothing(disk);
  }

  // ---------------------------------------------------------------- offsets

  lemma {:induction false} TotalSizeConcat(a: seq<Loc>, b: seq<Loc>)
    ensures TotalSize(a + b) == TotalSize(a) + TotalSize(b)
  {
    if a == [] {
      assert a + b == b;
    } else {
      TotalSizeConcat(a[1..], b);
      assert (a + b)[1..] == a[1..] + b;
    }
  }

  lemma OffsetStep(parts: seq<Loc>, p: nat)
    requires p < |parts|
    ensures OffsetOf(parts, p + 1) == OffsetOf(parts, p) + parts[p].size
  {
    TotalSizeConcat(parts[..p], [parts[p]]);
    assert parts[..p + 1] == parts[..p] + [parts[p]];
  }

  /** Parts of positive size occupy disjoint, increasing stretches of the block. */
  lemma OffsetsDisjoint(parts: seq<Loc>, p: nat, q: nat)
    requires p < q <= |parts|
    ensures OffsetOf(parts, p) + parts[p].size <= OffsetOf(parts, q) <= TotalSize(parts)
    decreases q
  {
    if p + 1 < q {
      OffsetsDisjoint(parts, p, q - 1);
      OffsetStep(parts, q - 1);
    } else {
      OffsetStep(parts, p);
    }
    TotalSizeConcat(parts[..q], parts[q..]);
    assert parts[..q] + parts[q..] == parts;
  }

  lemma {:induction false} AssembledConcat(disk: Disk, a: seq<Loc>, b: seq<Loc>)
    requires PartsOnDisk(disk, a) && PartsOnDisk(disk, b)
    ensures PartsOnDisk(disk, a + b)
    ensures Assembled(disk, a + b) == Assembled(disk, a) + Assembled(disk, b)
  {
    hide PartBytes, InBounds, PartsOnDisk, Assembled;
    if a == [] {
      assert a + b == b;
      AssembledNothing(disk);
    } else {
      TailOnDisk(disk, a);
      AssembledConcat(disk, a[1..], b);
      assert (a + b)[0] == a[0] && (a + b)[1..] == a[1..] + b;
      ConsOnDisk(disk, a + b);
      AssembledHead(disk, a);
      AssembledHead(disk, a + b);
    }
  }

  lemma AssembledHead(disk: Disk, parts: seq<Loc>)
    requires parts != [] && InBounds(disk, parts[0]) && PartsOnDisk(disk, parts[1..]) && PartsOnDisk(disk, parts)
    ensures Assembled(disk, parts) == PartBytes(disk, parts[0]) + Assembled(disk, parts[1..])
  {
    hide PartBytes, InBounds, PartsOnDisk;
  }

  lemma ConsOnDisk(disk: Disk, parts: seq<Loc>)
    requires parts != [] && InBounds(disk, parts[0]) && PartsOnDisk(disk, parts[1..])
    ensures PartsOnDisk(disk, parts)
  {
    hide InBounds;
    forall p | 0 <= p < |parts| ensures InBounds(disk, parts[p]) {
      if p > 0 { assert parts[p] == parts[1..][p - 1]; }
    }
  }

  lemma TailOnDisk(disk: Disk, parts: seq<Loc>)
    requires PartsOnDisk(disk, parts) && parts != []
    ensures InBounds(disk, parts[0]) && PartsOnDisk(disk, parts[1..])
  {
    hide InBounds;
    assert forall p :: 0 <= p < |parts[1..]| ==> parts[1..][p] == parts[p + 1];
  }

  /** The block grows by one part. */
  lemma AssembledStep(disk: Disk, parts: seq<Loc>, n: nat)
    requires PartsOnDisk(disk, parts) && n < |parts|
    ensures PartsOnDisk(disk, parts[..n]) && PartsOnDisk(disk, parts[..n + 1]) && InBounds(disk, parts[n])
    ensures Assembled(disk, parts[..n + 1]) == Assembled(disk, parts[..n]) + PartBytes(disk, parts[n])
  {
    hide PartBytes, InBounds;
    PrefixOnDisk(disk, parts, n);
    PrefixOnDisk(disk, parts, n + 1);
    var last := [parts[n]];
    assert PartsOnDisk(disk, last);
    assert parts[..n + 1] == parts[..n] + last;
    AssembledConcat(disk, parts[..n], last);
    AssembledOne(disk, parts[n]);
  }

  lemma AssembledOne(disk: Disk, loc: Loc)
    requires InBounds(disk, loc)
    ensures PartsOnDisk(disk, [loc]) && Assembled(disk, [loc]) == PartBytes(disk, loc)
  {
    assert [loc][1..] == [];
    assert Assembled(disk, [loc]) == PartBytes(disk, loc) + Assembled(disk, [loc][1..]);
  }

  lemma PrefixOnDisk(disk: Disk, parts: seq<Loc>, p: nat)
    requires PartsOnDisk(disk, parts) && p <= |parts|
    ensures PartsOnDisk(disk, parts[..p]) && PartsOnDisk(disk, parts[p..])
    ensures Assembled(disk, parts) == Assembled(disk, parts[..p]) + Assembled(disk, parts[p..])
  {
    AssembledConcat(disk, parts[..p], parts[p..]);
    assert parts[..p] + parts[p..] == parts;
  }

  /** A block of the right size whose every non-empty part is in place is the key's block. */
  lemma PartsInPlace(disk: Disk, parts: seq<Loc>, b: seq<byte>)
    requires PartsOnDisk(disk, parts) && |b| == TotalSize(parts)
    requires forall p :: 0 <= p < |parts| && parts[p].size > 0 ==> PartInPlace(disk, parts, b, p)
    ensures b == Assembled(disk, parts)
  {
    PrefixInPlace(disk, parts, b, |parts|);
    assert parts[..|parts|] == parts;
  }

  ghost predicate PartInPlace(disk: Disk, parts: seq<Loc>, b: seq<byte>, p: nat)
    requires p < |parts| && InBounds(disk, parts[p])
  {
    OffsetOf(parts, p) + parts[p].size <= |b|
    && b[OffsetOf(parts, p)..OffsetOf(parts, p) + parts[p].size] == PartBytes(disk, parts[p])
  }

  lemma {:induction false} PrefixInPlace(disk: Disk, parts: seq<Loc>, b: seq<byte>, n: nat)
    requires PartsOnDisk(disk, parts) && |b| == TotalSize(parts) && n <= |parts|
    requires forall p :: 0 <= p < |parts| && parts[p].size > 0 ==> PartInPlace(disk, parts, b, p)
    ensures PartsOnDisk(disk, parts[..n]) && OffsetOf(parts, n) <= |b|
    ensures b[..OffsetOf(parts, n)] == Assembled(disk, parts[..n])
    decreases n
  {
    hide PartBytes, InBounds, Assembled;
    PrefixOnDisk(disk, parts, n);
    if n == 0 {
      assert parts[..0] == [];
      assert Assembled(disk, parts[..0]) == [] by { AssembledNothing(disk); }
    } else {
      PrefixInPlace(disk, parts, b, n - 1);
      AssembledStep(disk, parts, n - 1);
      OffsetStep(parts, n - 1);
      OffsetsDisjoint(parts, n - 1, n);
      var lo, hi := OffsetOf(parts, n - 1), OffsetOf(parts, n);
      assert b[lo..hi] == PartBytes(disk, parts[n - 1]) by {
        if parts[n - 1].size == 0 { EmptyPart(disk, parts[n - 1]); }
      }
      assert b[..hi] == b[..lo] + b[lo..hi];
    }
  }

  lemma AssembledNothing(disk: Disk)
    ensures PartsOnDisk(disk, []) && Assembled(disk, []) == []
  {
  }

  lemma EmptyPart(disk: Disk, loc: Loc)
    requires InBounds(disk, loc)
    ensures |PartBytes(disk, loc)| == loc.size
  {
  }

  // ---------------------------------------------------------------- the synchronous loader

  predicate IsSharedSlot(e: int) {
    e == SHARED_GATE_SLOT || e == SHARED_UP_SLOT || e == SHARED_DOWN_SLOT
  }

  /** The checks before any load: the layer and the expert (or shared slot) exist and have bytes. */
  predicate Loadable(ix: Index, layer: int, expertId: int, shared: bool) {
    && 0 <= layer < ix.numLayers
    && (if shared then IsSharedSlot(expertId) else 0 <= expertId < ix.numExperts)
    && TotalSize(Parts(ix, ExpertKey(layer, expertId))) > 0
  }

  /** The first n parts lie in shards that can be mapped. */
  ghost predicate AllMapped(unmapped: set<Shard>, parts: seq<Loc>, n: nat)
    requires n <= |parts|
  {
    forall p :: 0 <= p < n && parts[p].size > 0 ==> parts[p].shard !in unmapped
  }

  /** What a synchronous load returns when the given shards cannot be mapped:
      nothing for an unknown or empty expert, else all of its bytes or nothing. */
  ghost function SyncLoad(ix: Index, disk: Disk, layer: int, expertId: int, shared: bool,
                          unmapped: set<Shard>): Option<seq<byte>>
    requires GoodIndex(ix, disk)
  {
    if !Loadable(ix, layer, expertId, shared) then None
    else
      var parts := Parts(ix, ExpertKey(layer, expertId));
      if AllMapped(unmapped, parts, |parts|) then Some(KeyBytes(ix, disk, ExpertKey(layer, expertId))) else None
  }

  /** loadExpertFromDisk. */
  method LoadExpertFromDisk(ix: Index, disk: Disk, layer: int, expertId: int, unmapped: set<Shard>)
    returns (out: Option<seq<byte>>)
    requires GoodIndex(ix, disk)
    ensures out == SyncLoad(ix, disk, layer, expertId, false, unmapped)
  {
    if layer < 0 || layer >= ix.numLayers || expertId < 0 || expertId >= ix.numExperts {
      return None;
    }
    ghost var key := ExpertKey(layer, expertId);
    var ew := ix.routed[layer][expertId];
    var locs := [ew.gate, ew.up, ew.down];
    assert locs == Parts(ix, key);
    PartsInBounds(ix, disk, key);
    var totalBytes := ew.gate.size + ew.up.size + ew.down.size;
    ThreeParts(locs);
    if totalBytes == 0 {
      return None;
    }
    out := CopyParts(disk, unmapped, locs);
  }

  lemma ThreeParts(locs: seq<Loc>)
    requires |locs| == 3
    ensures TotalSize(locs) == locs[0].size + locs[1].size + locs[2].size
  {
    assert TotalSize(locs[1..]) == locs[1..][0].size + TotalSize(locs[1..][1..]);
    assert locs[1..][1..] == [locs[2]] && TotalSize([locs[2]]) == locs[2].size + TotalSize([locs[2]][1..]);
  }

  /** The copy loop of the loader. */
  method CopyParts(disk: Disk, unmapped: set<Shard>, locs: seq<Loc>) returns (out: Option<seq<byte>>)
    requires PartsOnDisk(disk, locs)
    ensures out == if AllMapped(unmapped, locs, |locs|) then Some(Assembled(disk, locs)) else None
  {
    hide Assembled;
    var dest: seq<byte> := [];
    var i := 0;
    AssembledNothing(disk);
    assert locs[..0] == [];
    while i < |locs|
      invariant 0 <= i <= |locs|
      invariant PartsOnDisk(disk, locs[..i]) && dest == Assembled(disk, locs[..i])
      invariant AllMapped(unmapped, locs, i)
    {
      var loc := locs[i];
      AssembledStep(disk, locs, i);
      if loc.size > 0 {
        if loc.shard in unmapped {
          return None;
        }
        dest := dest + disk[loc.shard][loc.off..loc.off + loc.size];
      }
      i := i + 1;
    }
    assert locs[..i] == locs;
    return Some(dest);
  }
}
