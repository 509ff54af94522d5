/** The batches onLayerRouterDone stages: the known experts of a list, then the
    layer's three shared projections. */
module RouterStaging {
  import opened Bytes
  import opened ExpertDisk
  import opened PipelineUnique

  function Known(experts: seq<int>, numExperts: nat): seq<int> {
    if experts == [] then []
    else
      var last := experts[|experts| - 1];
      Known(experts[..|experts| - 1], numExperts) + (if 0 <= last < numExperts then [last] else [])
  }

  function EntriesOf(layer: int, experts: seq<int>): (r: seq<(int, int)>)
    ensures |r| == |experts| && forall i :: 0 <= i < |r| ==> r[i] == (layer, experts[i])
  {
    seq(|experts|, i requires 0 <= i < |experts| => (layer, experts[i]))
  }

  /** The batch for a layer. */
  function StagingBatch(layer: int, experts: seq<int>, numExperts: nat): seq<(int, int)> {
    EntriesOf(layer, Known(experts, numExperts) + [SHARED_GATE_SLOT, SHARED_UP_SLOT, SHARED_DOWN_SLOT])
  }

  /** The known experts are the listed ones that exist. */
  lemma {:induction false} KnownMembers(experts: seq<int>, numExperts: nat, e: int)
    ensures e in Known(experts, numExperts) <==> e in experts && 0 <= e < numExperts
  {
    if experts != [] {
      KnownMembers(experts[..|experts| - 1], numExperts, e);
      assert experts == experts[..|experts| - 1] + [experts[|experts| - 1]];
    }
  }

  /** What a layer's batch stages: of that layer, exactly the listed experts there
      are and the three shared projections. */
  ghost predicate Stages(batch: seq<(int, int)>, layer: int, experts: seq<int>, numExperts: nat) {
    forall l: int, e: int :: (l, e) in batch <==>
      l == layer && ((e in experts && 0 <= e < numExperts)
                     || e == SHARED_GATE_SLOT || e == SHARED_UP_SLOT || e == SHARED_DOWN_SLOT)
  }

  lemma BatchEntries(layer: int, experts: seq<int>, numExperts: nat)
    ensures Stages(StagingBatch(layer, experts, numExperts), layer, experts, numExperts)
  {
    var ids := Known(experts, numExperts) + [SHARED_GATE_SLOT, SHARED_UP_SLOT, SHARED_DOWN_SLOT];
    forall l: int, e: int
      ensures (l, e) in StagingBatch(layer, experts, numExperts) <==>
        l == layer && ((e in experts && 0 <= e < numExperts)
                       || e == SHARED_GATE_SLOT || e == SHARED_UP_SLOT || e == SHARED_DOWN_SLOT)
    {
      KnownMembers(experts, numExperts, e);
      EntriesMembers(layer, ids, l, e);
    }
  }

  lemma EntriesMembers(layer: int, ids: seq<int>, l: int, e: int)
    ensures (l, e) in EntriesOf(layer, ids) <==> l == layer && e in ids
  {
    if e in ids {
      var i :| 0 <= i < |ids| && ids[i] == e;
      assert EntriesOf(layer, ids)[i] == (layer, e);
    }
  }

  method BatchFor(layer: int, experts: seq<int>, numExperts: nat) returns (batch: seq<(int, int)>)
    ensures batch == StagingBatch(layer, experts, numExperts)
    ensures Stages(batch, layer, experts, numExperts)
  {
    BatchEntries(layer, experts, numExperts);
    batch := [];
    var i := 0;
    while i < |experts|
      invariant 0 <= i <= |experts|
      invariant batch == EntriesOf(layer, Known(experts[..i], numExperts))
    {
      assert experts[..i + 1][..i] == experts[..i];
      if 0 <= experts[i] < numExperts {
        batch := batch + [(layer, experts[i])];
      }
      i := i + 1;
    }
    assert experts[..i] == experts;
    batch := batch + [(layer, SHARED_GATE_SLOT), (layer, SHARED_UP_SLOT), (layer, SHARED_DOWN_SLOT)];
  }

  lemma {:induction false} KnownFacts(experts: seq<int>, numExperts: nat)
    requires Distinct(experts)
    ensures Distinct(Known(experts, numExperts))
  {
    if experts != [] {
      var front, last := experts[..|experts| - 1], experts[|experts| - 1];
      assert experts == front + [last];
      KnownFacts(front, numExperts);
      KnownMembers(front, numExperts, last);
      assert forall k :: 0 <= k < |front| ==> front[k] == experts[k];
      assert last !in front;
    }
  }

  /** Different experts give different keys: neither the cut to 16 bits nor the
      shared slots can make two entries of a batch meet. */
  lemma BatchKeysDistinct(layer: int, experts: seq<int>, numExperts: nat)
    requires Distinct(experts) && numExperts <= SHARED_GATE_SLOT
    ensures KeysDistinct(StagingBatch(layer, experts, numExperts))
  {
    KnownFacts(experts, numExperts);
    var known := Known(experts, numExperts);
    var ids := known + [SHARED_GATE_SLOT, SHARED_UP_SLOT, SHARED_DOWN_SLOT];
    forall i | 0 <= i < |known| ensures 0 <= known[i] < SHARED_GATE_SLOT {
      assert known[i] in known;
      KnownMembers(experts, numExperts, known[i]);
    }
    forall i, j | 0 <= i < j < |ids| ensures ids[i] % 0x1_0000 != ids[j] % 0x1_0000 {
      assert i < |known| ==> ids[i] == known[i];
      assert j < |known| ==> ids[j] == known[j];
    }
  }
}
