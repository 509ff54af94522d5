/** The shared work of the streaming pipeline: assembly buffers filled by read
    completions on several threads, one atomic step at a time. Copying a slice
    and decrementing the assembly's counter are separate steps, as they are in
    the completion callback of prefetchAsync. */
module Assembling {
  import opened Bytes
  import opened LruModel
  import opened ExpertDisk
  import opened Runs

  /** One expert being assembled. The buffer is None once moved out; erased and
      handovers record what the callback has done with the assembly. */
  datatype Assembly = Assembly(key: ExpertKey, buffer: Option<seq<byte>>, remaining: int, inserted: bool,
                               erased: bool, handovers: nat)

  /** What the callback does next for the current slice. */
  datatype Act = Copy | Dec | Exchange | Move | Erase

  /** The life of one read: built, counted as pending, queued, taken by a
      worker, its slices scattered one by one, callback returned, no longer
      pending. The flag of Returned and Done says whether the read succeeded. */
  datatype Phase = Built | Counted | Queued | Reading
    | Scatter(data: seq<byte>, slice: nat, act: Act) | Returned(ok: bool) | Done(ok: bool)

  datatype Job = Job(run: Run, phase: Phase)

  /** Assemblies from index wired on are private to the forward thread: their
      slices are in no run yet. */
  datatype Work = Work(asms: seq<Assembly>, jobs: seq<Job>, wired: nat)

  // ---------------------------------------------------------------- slices

  predicate IsSlice(jobs: seq<Job>, j: nat, i: nat) {
    j < |jobs| && i < |jobs[j].run.slices|
  }

  function Sl(jobs: seq<Job>, j: nat, i: nat): Slice
    requires IsSlice(jobs, j, i)
  {
    jobs[j].run.slices[i]
  }

  /** The slice has not been counted down yet. */
  predicate Pending(ph: Phase, i: nat) {
    match ph
    case Scatter(_, c, act) => i > c || (i == c && (act.Copy? || act.Dec?))
    case Returned(ok) => !ok
    case Done(ok) => !ok
    case _ => true
  }

  /** The slice has been copied into its assembly. */
  predicate Copied(ph: Phase, i: nat) {
    match ph
    case Scatter(_, c, act) => i < c || (i == c && !act.Copy?)
    case Returned(ok) => ok
    case Done(ok) => ok
    case _ => false
  }

  /** The callback of this job is handing assembly a over to the cache. */
  predicate Hands(job: Job, a: nat) {
    && job.phase.Scatter? && job.phase.slice < |job.run.slices| && job.run.slices[job.phase.slice].assem == a
    && (job.phase.act.Exchange? || job.phase.act.Move? || job.phase.act.Erase?)
  }

  /** Slice s of a run is part p of the key. */
  ghost predicate SliceOf(ix: Index, key: ExpertKey, run: Run, s: Slice, p: nat) {
    var parts := Parts(ix, key);
    && p < |parts| && parts[p].size > 0 && s.size == parts[p].size && s.expertOffset == OffsetOf(parts, p)
    && run.shard == parts[p].shard && run.start + s.offsetInRun == parts[p].off
    && run.start + s.offsetInRun + s.size <= run.end
  }

  ghost predicate SomePart(ix: Index, key: ExpertKey, run: Run, s: Slice) {
    exists p :: SliceOf(ix, key, run, s, p)
  }

  /** The slice's bytes stand in the buffer as they stand on disk. */
  ghost predicate InPlace(disk: Disk, run: Run, s: Slice, b: seq<byte>) {
    && run.shard in disk && run.start + s.offsetInRun + s.size <= |disk[run.shard]|
    && s.expertOffset + s.size <= |b|
    && b[s.expertOffset..s.expertOffset + s.size]
         == disk[run.shard][run.start + s.offsetInRun..run.start + s.offsetInRun + s.size]
  }

  // ---------------------------------------------------------------- what never changes

  ghost predicate RunReadable(disk: Disk, run: Run) {
    run.slices != [] && run.shard in disk && run.start <= run.end <= |disk[run.shard]|
  }

  ghost predicate JobsReadable(disk: Disk, jobs: seq<Job>) {
    forall j :: 0 <= j < |jobs| ==> RunReadable(disk, jobs[j].run)
  }

  ghost predicate SlicesPlaced(ix: Index, w: Work)
    requires w.wired <= |w.asms|
  {
    forall j: nat, i: nat :: IsSlice(w.jobs, j, i) ==>
      && Sl(w.jobs, j, i).assem < w.wired
      && SomePart(ix, w.asms[Sl(w.jobs, j, i).assem].key, w.jobs[j].run, Sl(w.jobs, j, i))
  }

  /** Each projection of an assembly is in one slice only. */
  ghost predicate SlicesUnique(jobs: seq<Job>) {
    forall j: nat, i: nat, k: nat, l: nat :: IsSlice(jobs, j, i) && IsSlice(jobs, k, l)
      && Sl(jobs, j, i).assem == Sl(jobs, k, l).assem && Sl(jobs, j, i).expertOffset == Sl(jobs, k, l).expertOffset
      ==> j == k && i == l
  }

  ghost predicate HasSlice(jobs: seq<Job>, a: nat, offset: nat) {
    exists j: nat, i: nat :: IsSlice(jobs, j, i) && Sl(jobs, j, i).assem == a && Sl(jobs, j, i).expertOffset == offset
  }

  /** Every non-empty part of a wired assembly is in some slice. */
  ghost predicate PartsWired(ix: Index, w: Work)
    requires w.wired <= |w.asms|
  {
    forall a, p :: 0 <= a < w.wired && 0 <= p < |Parts(ix, w.asms[a].key)| && Parts(ix, w.asms[a].key)[p].size > 0
      ==> HasSlice(w.jobs, a, OffsetOf(Parts(ix, w.asms[a].key), p))
  }

  ghost predicate Static(ix: Index, disk: Disk, w: Work) {
    && w.wired <= |w.asms|
    && JobsReadable(disk, w.jobs) && SlicesPlaced(ix, w) && SlicesUnique(w.jobs) && PartsWired(ix, w)
    && forall a :: 0 <= a < |w.asms| ==> TotalSize(Parts(ix, w.asms[a].key)) > 0
  }

  /** Only phases and assembly contents differ. */
  ghost predicate SameShape(w: Work, v: Work) {
    && |w.asms| == |v.asms| && |w.jobs| == |v.jobs| && w.wired == v.wired
    && (forall a :: 0 <= a < |w.asms| ==> w.asms[a].key == v.asms[a].key)
    && (forall j :: 0 <= j < |w.jobs| ==> w.jobs[j].run == v.jobs[j].run)
  }

  lemma StaticKept(ix: Index, disk: Disk, w: Work, v: Work)
    requires Static(ix, disk, w) && SameShape(w, v)
    ensures Static(ix, disk, v)
  {
    assert forall j: nat, i: nat :: IsSlice(v.jobs, j, i) ==>
      IsSlice(w.jobs, j, i) && Sl(v.jobs, j, i) == Sl(w.jobs, j, i);
    assert SlicesPlaced(ix, v) by {
      hide SomePart;
      forall j: nat, i: nat | IsSlice(v.jobs, j, i)
        ensures Sl(v.jobs, j, i).assem < v.wired
        ensures SomePart(ix, v.asms[Sl(v.jobs, j, i).assem].key, v.jobs[j].run, Sl(v.jobs, j, i))
      {
        assert IsSlice(w.jobs, j, i);
      }
    }
    assert SlicesUnique(v.jobs);
    forall a, p | 0 <= a < v.wired && 0 <= p < |Parts(ix, v.asms[a].key)| && Parts(ix, v.asms[a].key)[p].size > 0
      ensures HasSlice(v.jobs, a, OffsetOf(Parts(ix, v.asms[a].key), p))
    {
      var offset := OffsetOf(Parts(ix, w.asms[a].key), p);
      assert HasSlice(w.jobs, a, offset);
      var j: nat, i: nat :| IsSlice(w.jobs, j, i) && Sl(w.jobs, j, i).assem == a
          && Sl(w.jobs, j, i).expertOffset == offset;
      assert IsSlice(v.jobs, j, i) && Sl(v.jobs, j, i) == Sl(w.jobs, j, i);
    }
  }

  // ---------------------------------------------------------------- what the phases say

  ghost predicate PhaseOk(disk: Disk, job: Job) {
    job.phase.Scatter? ==>
      && job.phase.slice < |job.run.slices|
      && RunReadable(disk, job.run) && job.phase.data == disk[job.run.shard][job.run.start..job.run.end]
  }

  ghost predicate PhasesOk(disk: Disk, jobs: seq<Job>) {
    forall j :: 0 <= j < |jobs| ==> PhaseOk(disk, jobs[j])
  }

  /** The offsets of the slices of assembly a that are not counted down yet. */
  function Undecremented(jobs: seq<Job>, a: nat): set<nat> {
    set j, i | 0 <= j < |jobs| && 0 <= i < |jobs[j].run.slices| && jobs[j].run.slices[i].assem == a
      && Pending(jobs[j].phase, i)
      :: jobs[j].run.slices[i].expertOffset
  }

  /** How many of the parts are non-empty. */
  function NonEmptyParts(parts: seq<Loc>): nat {
    if parts == [] then 0 else NonEmptyParts(parts[..|parts| - 1]) + (if parts[|parts| - 1].size > 0 then 1 else 0)
  }

  /** remaining is the number of non-empty parts not yet counted down. */
  ghost predicate CountExact(ix: Index, w: Work, a: nat)
    requires a < |w.asms|
  {
    w.asms[a].remaining == if a < w.wired then |Undecremented(w.jobs, a)| else NonEmptyParts(Parts(ix, w.asms[a].key))
  }

  /** Every copied slice of the assembly is in place in a buffer of full size. */
  ghost predicate BufferExact(ix: Index, disk: Disk, w: Work, a: nat)
    requires a < |w.asms|
  {
    var asm := w.asms[a];
    asm.buffer.Some? ==>
      && |asm.buffer.value| == TotalSize(Parts(ix, asm.key))
      && forall j: nat, i: nat :: IsSlice(w.jobs, j, i) && Sl(w.jobs, j, i).assem == a && Copied(w.jobs[j].phase, i)
           ==> InPlace(disk, w.jobs[j].run, Sl(w.jobs, j, i), asm.buffer.value)
  }

  /** Where the assembly stands, against what job is doing for it. */
  ghost predicate HandingExact(asm: Assembly, act: Act) {
    && asm.remaining == 0 && !asm.erased
    && (act.Exchange? ==> !asm.inserted && asm.buffer.Some?)
    && (act.Move? ==> asm.inserted && asm.buffer.Some?)
    && (act.Erase? ==> asm.inserted && asm.buffer.None?)
  }

  /** Nobody hands an unfinished assembly over; a finished one is handed over
      by one callback, once. */
  ghost predicate HandoverExact(w: Work, a: nat)
    requires a < |w.asms|
  {
    var asm := w.asms[a];
    && asm.handovers == (if asm.buffer.None? then 1 else 0)
    && (asm.remaining != 0 ==> !asm.inserted && asm.buffer.Some? && !asm.erased)
    && (asm.erased ==> asm.remaining == 0 && asm.buffer.None? && asm.inserted)
    && (forall j :: 0 <= j < |w.jobs| && Hands(w.jobs[j], a) ==> HandingExact(asm, w.jobs[j].phase.act))
    && (forall j, k :: 0 <= j < |w.jobs| && 0 <= k < |w.jobs| && Hands(w.jobs[j], a) && Hands(w.jobs[k], a) ==> j == k)
    && (a < w.wired && asm.remaining == 0 && !asm.erased ==> Handing(w, a))
    && (a >= w.wired ==> asm.remaining != 0)
  }

  ghost predicate Handing(w: Work, a: nat) {
    exists j :: 0 <= j < |w.jobs| && Hands(w.jobs[j], a)
  }

  ghost predicate AssemblyOk(ix: Index, disk: Disk, w: Work, a: nat)
    requires a < |w.asms|
  {
    CountExact(ix, w, a) && BufferExact(ix, disk, w, a) && HandoverExact(w, a)
  }

  ghost predicate Inv(ix: Index, disk: Disk, w: Work) {
    && Static(ix, disk, w) && PhasesOk(disk, w.jobs)
    && forall a :: 0 <= a < |w.asms| ==> AssemblyOk(ix, disk, w, a)
  }

  // ---------------------------------------------------------------- frames

  /** For assembly a nothing has happened between w and v. */
  ghost predicate Untouched(w: Work, v: Work, a: nat) {
    && a < |w.asms| && SameShape(w, v) && w.asms[a] == v.asms[a]
    && (forall j: nat, i: nat :: IsSlice(w.jobs, j, i) && Sl(w.jobs, j, i).assem == a ==>
          Pending(v.jobs[j].phase, i) == Pending(w.jobs[j].phase, i)
            && Copied(v.jobs[j].phase, i) == Copied(w.jobs[j].phase, i))
    && (forall j :: 0 <= j < |w.jobs| ==> Hands(v.jobs[j], a) == Hands(w.jobs[j], a))
    && (forall j :: 0 <= j < |w.jobs| && Hands(w.jobs[j], a) ==> v.jobs[j].phase == w.jobs[j].phase)
  }

  lemma UndecrementedSame(w: Work, v: Work, a: nat)
    requires SameShape(w, v)
    requires forall j: nat, i: nat :: IsSlice(w.jobs, j, i) && Sl(w.jobs, j, i).assem == a ==>
               Pending(v.jobs[j].phase, i) == Pending(w.jobs[j].phase, i)
    ensures Undecremented(v.jobs, a) == Undecremented(w.jobs, a)
  {
    hide Pending;
    var x, y := Undecremented(v.jobs, a), Undecremented(w.jobs, a);
    forall o | o in x ensures o in y {
      var j, i :| 0 <= j < |v.jobs| && 0 <= i < |v.jobs[j].run.slices| && v.jobs[j].run.slices[i].assem == a
        && Pending(v.jobs[j].phase, i) && v.jobs[j].run.slices[i].expertOffset == o;
      assert IsSlice(w.jobs, j, i);
    }
    forall o | o in y ensures o in x {
      var j, i :| 0 <= j < |w.jobs| && 0 <= i < |w.jobs[j].run.slices| && w.jobs[j].run.slices[i].assem == a
        && Pending(w.jobs[j].phase, i) && w.jobs[j].run.slices[i].expertOffset == o;
      assert IsSlice(w.jobs, j, i);
    }
  }

  lemma BufferUntouched(ix: Index, disk: Disk, w: Work, v: Work, a: nat)
    requires Untouched(w, v, a) && BufferExact(ix, disk, w, a)
    ensures BufferExact(ix, disk, v, a)
  {
    hide InPlace, Copied, Pending, Hands;
    if v.asms[a].buffer.Some? {
      forall j: nat, i: nat | IsSlice(v.jobs, j, i) && Sl(v.jobs, j, i).assem == a && Copied(v.jobs[j].phase, i)
        ensures InPlace(disk, v.jobs[j].run, Sl(v.jobs, j, i), v.asms[a].buffer.value)
      {
        assert IsSlice(w.jobs, j, i);
      }
    }
  }

  lemma HandoverUntouched(w: Work, v: Work, a: nat)
    requires Untouched(w, v, a) && HandoverExact(w, a)
    ensures HandoverExact(v, a)
  {
    hide Copied, Pending, Hands;
    if Handing(w, a) {
      var j :| 0 <= j < |w.jobs| && Hands(w.jobs[j], a);
      assert Hands(v.jobs[j], a);
    }
  }

  lemma AssemblyUntouched(ix: Index, disk: Disk, w: Work, v: Work, a: nat)
    requires Untouched(w, v, a) && AssemblyOk(ix, disk, w, a)
    ensures AssemblyOk(ix, disk, v, a)
  {
    BufferUntouched(ix, disk, w, v, a);
    HandoverUntouched(w, v, a);
    UndecrementedSame(w, v, a);
  }
}
