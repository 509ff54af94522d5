/** The two steps of the forward thread that extend the shared work: making a
    private assembly, and wiring the runs of a finished batch. Both keep the
    invariant of Assembling. */
module WiringSteps {
  import opened Bytes
  import opened LruModel
  import opened ExpertDisk
  import opened Runs
  import opened Assembling
  import opened Wiring

  function Zeros(n: nat): (z: seq<byte>)
    ensures |z| == n
  {
    seq(n, _ => 0)
  }

  /** A fresh assembly: zeroed buffer, one count for every non-empty part. */
  function NewAssembly(ix: Index, key: ExpertKey): Assembly {
    var parts := Parts(ix, key);
    Assembly(key, Some(Zeros(TotalSize(parts))), NonEmptyParts(parts), false, false, 0)
  }

  function DoCreate(ix: Index, w: Work, key: ExpertKey): Work {
    w.(asms := w.asms + [NewAssembly(ix, key)])
  }

  function JobsOf(runs: seq<Run>): seq<Job> {
    seq(|runs|, r requires 0 <= r < |runs| => Job(runs[r], Built))
  }

  /** The batch's private assemblies become shared, one job for each run. */
  function DoWire(w: Work, runs: seq<Run>): Work {
    Work(w.asms, w.jobs + JobsOf(runs), |w.asms|)
  }

  /** The runs carry exactly the projections of the private assemblies. */
  ghost predicate Wireable(ix: Index, w: Work, runs: seq<Run>) {
    w.wired <= |w.asms| && Regrouped(BatchIos(ix, w.asms, w.wired, |w.asms|), runs)
  }

  // ---------------------------------------------------------------- what the runs of a batch carry

  /** Every slice of the runs is a non-empty part of one assembly of the batch. */
  lemma SliceFromPart(ix: Index, asms: seq<Assembly>, lo: nat, hi: nat, runs: seq<Run>, r: nat, i: nat) returns (p: nat)
    requires lo <= hi <= |asms| && Regrouped(BatchIos(ix, asms, lo, hi), runs)
    requires r < |runs| && i < |runs[r].slices|
    ensures FromPart(ix, asms, lo, hi, Placed(runs[r], i), p)
    ensures SliceOf(ix, asms[runs[r].slices[i].assem].key, runs[r], runs[r].slices[i], p)
  {
    hide BatchIos, Flat, Parts, OffsetOf, Reach;
    var ios, x := BatchIos(ix, asms, lo, hi), Placed(runs[r], i);
    FlatHas(runs, r, i);
    assert x in multiset(Flat(runs));
    assert x in multiset(ios);
    var k :| 0 <= k < |ios| && ios[k] == x;
    p := BatchIosFrom(ix, asms, lo, hi, k);
    ReachCovers(runs[r].slices, i);
    assert Tight(runs[r]);
  }

  lemma RunsReadable(ix: Index, disk: Disk, asms: seq<Assembly>, lo: nat, hi: nat, runs: seq<Run>, r: nat)
    requires GoodIndex(ix, disk)
    requires lo <= hi <= |asms| && Regrouped(BatchIos(ix, asms, lo, hi), runs) && r < |runs|
    ensures RunReadable(disk, runs[r])
  {
    hide BatchIos, Flat, Parts, OffsetOf, Reach, GoodIndex;
    assert Tight(runs[r]);
    var i := ReachAttained(runs[r].slices);
    var p := SliceFromPart(ix, asms, lo, hi, runs, r, i);
    var key := asms[runs[r].slices[i].assem].key;
    PartsInBounds(ix, disk, key);
    assert InBounds(disk, Parts(ix, key)[p]);
  }

  /** Two slices for the same place of the same assembly are one slice. */
  lemma SliceOnce(ix: Index, asms: seq<Assembly>, lo: nat, hi: nat, runs: seq<Run>, r: nat, i: nat, q: nat, l: nat)
    requires lo <= hi <= |asms| && Regrouped(BatchIos(ix, asms, lo, hi), runs)
    requires r < |runs| && i < |runs[r].slices| && q < |runs| && l < |runs[q].slices|
    requires runs[r].slices[i].assem == runs[q].slices[l].assem
      && runs[r].slices[i].expertOffset == runs[q].slices[l].expertOffset
    ensures r == q && i == l
  {
    hide BatchIos, Flat, Parts, OffsetOf, Tight, Distinct, SliceOf;
    var x := SliceFromPart(ix, asms, lo, hi, runs, r, i);
    var y := SliceFromPart(ix, asms, lo, hi, runs, q, l);
    OffsetsDiffer(Parts(ix, asms[runs[r].slices[i].assem].key), x, y);
    BatchIosDistinct(ix, asms, lo, hi);
    DistinctRearranged(BatchIos(ix, asms, lo, hi), Flat(runs));
    FlatUnique(runs, r, i, q, l);
  }

  /** Every non-empty part of the batch is in some run. */
  lemma PartInRuns(ix: Index, asms: seq<Assembly>, lo: nat, hi: nat, runs: seq<Run>, a: nat, p: nat)
    returns (r: nat, i: nat)
    requires lo <= a < hi <= |asms| && Regrouped(BatchIos(ix, asms, lo, hi), runs)
    requires p < |Parts(ix, asms[a].key)| && Parts(ix, asms[a].key)[p].size > 0
    ensures r < |runs| && i < |runs[r].slices|
    ensures runs[r].slices[i].assem == a && runs[r].slices[i].expertOffset == OffsetOf(Parts(ix, asms[a].key), p)
  {
    hide BatchIos, Flat, Parts, OffsetOf, Tight;
    var ios, x := BatchIos(ix, asms, lo, hi), ProjectionOf(Parts(ix, asms[a].key), a, p);
    BatchIosHas(ix, asms, lo, hi, a, p);
    assert x in multiset(ios);
    assert x in multiset(Flat(runs));
    r, i := FlatFrom(runs, x);
  }

  // ---------------------------------------------------------------- growing the work

  /** v extends w: more assemblies, more jobs just built, whose slices are for
      assemblies that were private in w. */
  ghost predicate Grown(w: Work, v: Work) {
    && w.wired <= |w.asms| <= |v.asms| && w.wired <= v.wired <= |v.asms| && |w.jobs| <= |v.jobs|
    && (forall a :: 0 <= a < |w.asms| ==> v.asms[a] == w.asms[a])
    && (forall j :: 0 <= j < |w.jobs| ==> v.jobs[j] == w.jobs[j])
    && (forall j :: |w.jobs| <= j < |v.jobs| ==> v.jobs[j].phase == Built)
    && (forall j: nat, i: nat :: j >= |w.jobs| && IsSlice(v.jobs, j, i) ==> Sl(v.jobs, j, i).assem >= w.wired)
  }

  lemma GrownUndecremented(w: Work, v: Work, a: nat)
    requires Grown(w, v) && a < w.wired
    ensures Undecremented(v.jobs, a) == Undecremented(w.jobs, a)
  {
    hide Pending;
    var x, y := Undecremented(v.jobs, a), Undecremented(w.jobs, a);
    forall o | o in x ensures o in y {
      var j, i :| 0 <= j < |v.jobs| && 0 <= i < |v.jobs[j].run.slices| && v.jobs[j].run.slices[i].assem == a
        && Pending(v.jobs[j].phase, i) && v.jobs[j].run.slices[i].expertOffset == o;
      assert IsSlice(v.jobs, j, i);
    }
    forall o | o in y ensures o in x {
      var j, i :| 0 <= j < |w.jobs| && 0 <= i < |w.jobs[j].run.slices| && w.jobs[j].run.slices[i].assem == a
        && Pending(w.jobs[j].phase, i) && w.jobs[j].run.slices[i].expertOffset == o;
      assert v.jobs[j] == w.jobs[j];
    }
  }

  lemma GrownBuffer(ix: Index, disk: Disk, w: Work, v: Work, a: nat)
    requires Grown(w, v) && a < |w.asms| && BufferExact(ix, disk, w, a)
    ensures BufferExact(ix, disk, v, a)
  {
    hide InPlace, Parts;
    if v.asms[a].buffer.Some? {
      forall j: nat, i: nat | IsSlice(v.jobs, j, i) && Sl(v.jobs, j, i).assem == a && Copied(v.jobs[j].phase, i)
        ensures InPlace(disk, v.jobs[j].run, Sl(v.jobs, j, i), v.asms[a].buffer.value)
      {
        assert j < |w.jobs|;
        assert IsSlice(w.jobs, j, i);
      }
    }
  }

  lemma GrownHandover(w: Work, v: Work, a: nat)
    requires Grown(w, v) && a < |w.asms| && HandoverExact(w, a)
    ensures HandoverExact(v, a)
  {
    forall j | 0 <= j < |v.jobs| && Hands(v.jobs[j], a) ensures j < |w.jobs| {
    }
    if Handing(w, a) {
      var j :| 0 <= j < |w.jobs| && Hands(w.jobs[j], a);
      assert Hands(v.jobs[j], a);
    }
  }

  /** What holds of an assembly that was already there. */
  lemma GrownAssembly(ix: Index, disk: Disk, w: Work, v: Work, a: nat)
    requires Grown(w, v) && a < |w.asms| && AssemblyOk(ix, disk, w, a)
    requires a < w.wired || v.wired <= a
    ensures AssemblyOk(ix, disk, v, a)
  {
    GrownBuffer(ix, disk, w, v, a);
    GrownHandover(w, v, a);
    if a < w.wired { GrownUndecremented(w, v, a); }
  }

  // ---------------------------------------------------------------- making an assembly

  lemma {:induction false} NonEmptyPositive(parts: seq<Loc>)
    requires TotalSize(parts) > 0
    ensures NonEmptyParts(parts) > 0
  {
    var n := |parts| - 1;
    OffsetStep(parts, n);
    assert parts[..n + 1] == parts;
    if parts[n].size == 0 { NonEmptyPositive(parts[..n]); }
  }

  lemma CreateGrows(ix: Index, disk: Disk, w: Work, key: ExpertKey)
    requires Static(ix, disk, w) && TotalSize(Parts(ix, key)) > 0
    ensures Grown(w, DoCreate(ix, w, key)) && Static(ix, disk, DoCreate(ix, w, key))
  {
    hide SomePart, HasSlice, RunReadable, Parts, TotalSize;
    var v := DoCreate(ix, w, key);
    assert v.asms[|w.asms|].key == key;
    assert SlicesPlaced(ix, v) by {
      forall j: nat, i: nat | IsSlice(v.jobs, j, i)
        ensures Sl(v.jobs, j, i).assem < v.wired
        ensures SomePart(ix, v.asms[Sl(v.jobs, j, i).assem].key, v.jobs[j].run, Sl(v.jobs, j, i))
      {
        assert IsSlice(w.jobs, j, i);
      }
    }
  }

  lemma CreatedAssembly(ix: Index, disk: Disk, w: Work, key: ExpertKey)
    requires Static(ix, disk, w) && TotalSize(Parts(ix, key)) > 0
    ensures AssemblyOk(ix, disk, DoCreate(ix, w, key), |w.asms|)
  {
    hide SomePart, Parts, TotalSize, NonEmptyParts;
    var v, a := DoCreate(ix, w, key), |w.asms|;
    NonEmptyPositive(Parts(ix, key));
    forall j: nat, i: nat | IsSlice(v.jobs, j, i) ensures Sl(v.jobs, j, i).assem != a {
      assert IsSlice(w.jobs, j, i);
    }
    forall j | 0 <= j < |v.jobs| ensures !Hands(v.jobs[j], a) {
      if v.jobs[j].phase.Scatter? && v.jobs[j].phase.slice < |v.jobs[j].run.slices| {
        assert IsSlice(v.jobs, j, v.jobs[j].phase.slice);
      }
    }
  }

  lemma CreateKeeps(ix: Index, disk: Disk, w: Work, key: ExpertKey)
    requires Inv(ix, disk, w) && TotalSize(Parts(ix, key)) > 0
    ensures Inv(ix, disk, DoCreate(ix, w, key))
  {
    var v := DoCreate(ix, w, key);
    CreateGrows(ix, disk, w, key);
    CreatedAssembly(ix, disk, w, key);
    assert v.jobs == w.jobs && v.wired == w.wired && |v.asms| == |w.asms| + 1;
    hide Static, Grown, AssemblyOk, PhasesOk, DoCreate;
    forall a | 0 <= a < |v.asms| ensures AssemblyOk(ix, disk, v, a) {
      if a < |w.asms| { GrownAssembly(ix, disk, w, v, a); }
    }
  }

  // ---------------------------------------------------------------- wiring the runs

  lemma WireGrows(ix: Index, w: Work, runs: seq<Run>)
    requires Wireable(ix, w, runs)
    ensures Grown(w, DoWire(w, runs))
  {
    hide BatchIos, Regrouped, Parts, SliceOf;
    var v := DoWire(w, runs);
    forall j: nat, i: nat | j >= |w.jobs| && IsSlice(v.jobs, j, i) ensures Sl(v.jobs, j, i).assem >= w.wired {
      assert v.jobs[j].run == runs[j - |w.jobs|];
      var p := SliceFromPart(ix, w.asms, w.wired, |w.asms|, runs, j - |w.jobs|, i);
    }
  }

  lemma WirePlaces(ix: Index, disk: Disk, w: Work, runs: seq<Run>)
    requires GoodIndex(ix, disk) && Static(ix, disk, w) && Wireable(ix, w, runs)
    ensures JobsReadable(disk, DoWire(w, runs).jobs) && SlicesPlaced(ix, DoWire(w, runs))
  {
    hide BatchIos, Regrouped, Parts, SliceOf, GoodIndex, RunReadable, TotalSize;
    var v := DoWire(w, runs);
    forall j | 0 <= j < |v.jobs| ensures RunReadable(disk, v.jobs[j].run) {
      if j >= |w.jobs| { RunsReadable(ix, disk, w.asms, w.wired, |w.asms|, runs, j - |w.jobs|); }
    }
    forall j: nat, i: nat | IsSlice(v.jobs, j, i)
      ensures Sl(v.jobs, j, i).assem < v.wired
      ensures SomePart(ix, v.asms[Sl(v.jobs, j, i).assem].key, v.jobs[j].run, Sl(v.jobs, j, i))
    {
      if j >= |w.jobs| {
        var p := SliceFromPart(ix, w.asms, w.wired, |w.asms|, runs, j - |w.jobs|, i);
      } else {
        assert IsSlice(w.jobs, j, i);
      }
    }
  }

  /** Whether a slice is old or new can be read off its assembly. */
  lemma OldSlices(ix: Index, disk: Disk, w: Work, v: Work, j: nat, i: nat)
    requires Static(ix, disk, w) && Grown(w, v) && IsSlice(v.jobs, j, i)
    ensures j < |w.jobs| <==> Sl(v.jobs, j, i).assem < w.wired
  {
    hide SomePart, RunReadable, HasSlice, Parts;
    if j < |w.jobs| { assert IsSlice(w.jobs, j, i); }
  }

  lemma WireUnique(ix: Index, disk: Disk, w: Work, runs: seq<Run>)
    requires Static(ix, disk, w) && Wireable(ix, w, runs)
    ensures SlicesUnique(DoWire(w, runs).jobs)
  {
    WireGrows(ix, w, runs);
    var v := DoWire(w, runs);
    forall j: nat, i: nat, k: nat, l: nat | IsSlice(v.jobs, j, i) && IsSlice(v.jobs, k, l)
      && Sl(v.jobs, j, i).assem == Sl(v.jobs, k, l).assem
        && Sl(v.jobs, j, i).expertOffset == Sl(v.jobs, k, l).expertOffset
      ensures j == k && i == l
    {
      WireUniqueAt(ix, disk, w, runs, j, i, k, l);
    }
  }

  predicate SamePlace(s: Slice, t: Slice) {
    s.assem == t.assem && s.expertOffset == t.expertOffset
  }

  lemma WireUniqueAt(ix: Index, disk: Disk, w: Work, runs: seq<Run>, j: nat, i: nat, k: nat, l: nat)
    requires Static(ix, disk, w) && Wireable(ix, w, runs) && Grown(w, DoWire(w, runs))
    requires IsSlice(DoWire(w, runs).jobs, j, i) && IsSlice(DoWire(w, runs).jobs, k, l)
    requires SamePlace(Sl(DoWire(w, runs).jobs, j, i), Sl(DoWire(w, runs).jobs, k, l))
    ensures j == k && i == l
  {
    hide BatchIos, Regrouped, Parts, SomePart, RunReadable, TotalSize, SlicesPlaced, PartsWired, Grown;
    var v, n := DoWire(w, runs), |w.jobs|;
    OldSlices(ix, disk, w, v, j, i);
    OldSlices(ix, disk, w, v, k, l);
    if j < n {
      assert IsSlice(w.jobs, j, i) && IsSlice(w.jobs, k, l);
    } else {
      SliceOnce(ix, w.asms, w.wired, |w.asms|, runs, j - n, i, k - n, l);
    }
  }

  lemma WiredPart(ix: Index, disk: Disk, w: Work, runs: seq<Run>, a: nat, p: nat)
    requires Static(ix, disk, w) && Wireable(ix, w, runs) && a < |w.asms|
    requires p < |Parts(ix, w.asms[a].key)| && Parts(ix, w.asms[a].key)[p].size > 0
    ensures HasSlice(DoWire(w, runs).jobs, a, OffsetOf(Parts(ix, w.asms[a].key), p))
  {
    hide BatchIos, Regrouped, Parts, OffsetOf, SomePart, RunReadable, TotalSize;
    var v, offset := DoWire(w, runs), OffsetOf(Parts(ix, w.asms[a].key), p);
    if a < w.wired {
      assert HasSlice(w.jobs, a, offset);
      var j: nat, i: nat :| IsSlice(w.jobs, j, i) && Sl(w.jobs, j, i).assem == a
          && Sl(w.jobs, j, i).expertOffset == offset;
      assert v.jobs[j] == w.jobs[j];
      assert IsSlice(v.jobs, j, i) && Sl(v.jobs, j, i) == Sl(w.jobs, j, i);
    } else {
      var r, i := PartInRuns(ix, w.asms, w.wired, |w.asms|, runs, a, p);
      var j := |w.jobs| + r;
      assert v.jobs[j].run == runs[r];
      assert IsSlice(v.jobs, j, i) && Sl(v.jobs, j, i) == runs[r].slices[i];
    }
  }

  lemma WireStatic(ix: Index, disk: Disk, w: Work, runs: seq<Run>)
    requires GoodIndex(ix, disk) && Static(ix, disk, w) && Wireable(ix, w, runs)
    ensures Static(ix, disk, DoWire(w, runs))
  {
    WirePlaces(ix, disk, w, runs);
    WireUnique(ix, disk, w, runs);
    var v := DoWire(w, runs);
    hide JobsReadable, SlicesPlaced, SlicesUnique, Wireable, HasSlice, Parts, OffsetOf, TotalSize, GoodIndex;
    forall a, p | 0 <= a < v.wired && 0 <= p < |Parts(ix, v.asms[a].key)| && Parts(ix, v.asms[a].key)[p].size > 0
      ensures HasSlice(v.jobs, a, OffsetOf(Parts(ix, v.asms[a].key), p))
    {
      WiredPart(ix, disk, w, runs, a, p);
    }
  }

  // ---------------------------------------------------------------- the counter is exact from the start

  /** The offsets of the non-empty among the first n parts. */
  function PartOffsets(parts: seq<Loc>, n: nat): set<nat>
    requires n <= |parts|
  {
    if n == 0 then {} else PartOffsets(parts, n - 1) + (if parts[n - 1].size > 0 then {OffsetOf(parts, n - 1)} else {})
  }

  lemma {:induction false} PartOffsetsFrom(parts: seq<Loc>, n: nat, o: nat) returns (p: nat)
    requires n <= |parts| && o in PartOffsets(parts, n)
    ensures p < n && parts[p].size > 0 && OffsetOf(parts, p) == o
    decreases n
  {
    if o in PartOffsets(parts, n - 1) {
      p := PartOffsetsFrom(parts, n - 1, o);
    } else {
      p := n - 1;
    }
  }

  lemma {:induction false} PartOffsetsHas(parts: seq<Loc>, n: nat, p: nat)
    requires p < n <= |parts| && parts[p].size > 0
    ensures OffsetOf(parts, p) in PartOffsets(parts, n)
    decreases n
  {
    if p < n - 1 { PartOffsetsHas(parts, n - 1, p); }
  }

  lemma {:induction false} PartOffsetsCount(parts: seq<Loc>, n: nat)
    requires n <= |parts|
    ensures |PartOffsets(parts, n)| == NonEmptyParts(parts[..n])
    decreases n
  {
    hide OffsetOf, NonEmptyParts, PartOffsets;
    PartOffsetsStep(parts, n);
    if n > 0 {
      PartOffsetsCount(parts, n - 1);
      NonEmptyStep(parts, n - 1);
      if parts[n - 1].size > 0 && OffsetOf(parts, n - 1) in PartOffsets(parts, n - 1) {
        var p := PartOffsetsFrom(parts, n - 1, OffsetOf(parts, n - 1));
        OffsetsDiffer(parts, p, n - 1);
      }
    }
  }

  lemma PartOffsetsStep(parts: seq<Loc>, n: nat)
    requires n <= |parts|
    ensures n == 0 ==> PartOffsets(parts, n) == {} && NonEmptyParts(parts[..n]) == 0
    ensures n > 0 ==>
      PartOffsets(parts, n)
      == PartOffsets(parts, n - 1) + (if parts[n - 1].size > 0 then {OffsetOf(parts, n - 1)} else {})
  {
    hide OffsetOf;
    assert parts[..0] == [];
  }

  /** Right after wiring no slice of a batch assembly is counted down, and its
      slices stand for its non-empty parts. */
  lemma WiredOffsets(ix: Index, disk: Disk, w: Work, runs: seq<Run>, a: nat)
    requires GoodIndex(ix, disk) && Static(ix, disk, w) && Wireable(ix, w, runs) && w.wired <= a < |w.asms|
    ensures Undecremented(DoWire(w, runs).jobs, a) == PartOffsets(Parts(ix, w.asms[a].key), |Parts(ix, w.asms[a].key)|)
  {
    WireStatic(ix, disk, w, runs);
    WireGrows(ix, w, runs);
    var v, parts := DoWire(w, runs), Parts(ix, w.asms[a].key);
    var x, y := Undecremented(v.jobs, a), PartOffsets(parts, |parts|);
    hide Wireable, GoodIndex, TotalSize, OffsetOf, Parts, PartOffsets, RunReadable, DoWire;
    forall o | o in x ensures o in y {
      var j, i :| 0 <= j < |v.jobs| && 0 <= i < |v.jobs[j].run.slices| && v.jobs[j].run.slices[i].assem == a
        && Pending(v.jobs[j].phase, i) && v.jobs[j].run.slices[i].expertOffset == o;
      assert IsSlice(v.jobs, j, i);
      var p: nat :| SliceOf(ix, w.asms[a].key, v.jobs[j].run, Sl(v.jobs, j, i), p);
      PartOffsetsHas(parts, |parts|, p);
    }
    forall o | o in y ensures o in x {
      var p := PartOffsetsFrom(parts, |parts|, o);
      WiredPart(ix, disk, w, runs, a, p);
      var j: nat, i: nat :| IsSlice(v.jobs, j, i) && Sl(v.jobs, j, i).assem == a && Sl(v.jobs, j, i).expertOffset == o;
      OldSlices(ix, disk, w, v, j, i);
    }
  }

  lemma WiredAssembly(ix: Index, disk: Disk, w: Work, runs: seq<Run>, a: nat)
    requires GoodIndex(ix, disk) && Static(ix, disk, w) && Wireable(ix, w, runs) && w.wired <= a < |w.asms|
    requires AssemblyOk(ix, disk, w, a)
    ensures AssemblyOk(ix, disk, DoWire(w, runs), a)
  {
    WireGrows(ix, w, runs);
    WiredOffsets(ix, disk, w, runs, a);
    var v, parts := DoWire(w, runs), Parts(ix, w.asms[a].key);
    assert v.asms == w.asms && v.wired == |w.asms|;
    hide Wireable, GoodIndex, Grown, BufferExact, HandoverExact, PartOffsets, Parts, Undecremented, NonEmptyParts,
         Static, DoWire;
    PartOffsetsCount(parts, |parts|);
    assert parts[..|parts|] == parts;
    GrownBuffer(ix, disk, w, v, a);
    GrownHandover(w, v, a);
  }

  lemma WireKeeps(ix: Index, disk: Disk, w: Work, runs: seq<Run>)
    requires GoodIndex(ix, disk) && Inv(ix, disk, w) && Wireable(ix, w, runs)
    ensures Inv(ix, disk, DoWire(w, runs))
  {
    var v := DoWire(w, runs);
    WireStatic(ix, disk, w, runs);
    WireGrows(ix, w, runs);
    assert PhasesOk(disk, v.jobs);
    assert |v.asms| == |w.asms|;
    hide Static, Grown, AssemblyOk, PhasesOk, DoWire, GoodIndex, Wireable;
    forall a | 0 <= a < |v.asms| ensures AssemblyOk(ix, disk, v, a) {
      if a < w.wired {
        GrownAssembly(ix, disk, w, v, a);
      } else {
        WiredAssembly(ix, disk, w, runs, a);
      }
    }
  }
}
