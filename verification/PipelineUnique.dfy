/** With different keys inside each batch no expert is ever read twice at the
    same time, and the in-flight set names exactly the unfinished assemblies. */
module PipelineUnique {
  import opened LruModel
  import opened ExpertDisk
  import opened Runs
  import opened Assembling
  import opened AssemblySteps
  import opened WiringSteps
  import opened Pipeline
  import opened PipelineSafety
  import opened PipelineBooks
  import opened PipelineRuns

  ghost predicate KeysDistinct(batch: seq<(int, int)>) {
    forall i, j :: 0 <= i < j < |batch| && batch[i].0 >= 0 && batch[j].0 >= 0 ==> KeyOf(batch[i]) != KeyOf(batch[j])
  }

  ghost predicate DistinctBatch(step: Step) {
    step.StartPrefetch? ==> KeysDistinct(step.batch)
  }

  // ---------------------------------------------------------------- the invariant

  /** No two unfinished assemblies are for the same key. */
  ghost predicate OneLive(w: Work) {
    forall a: nat, b: nat :: a < b && Live(w, a) && Live(w, b) ==> w.asms[a].key != w.asms[b].key
  }

  /** Shared unfinished assemblies are in flight, private ones are not yet. */
  ghost predicate MarkedOk(w: Work, inFlight: set<ExpertKey>) {
    forall a: nat :: Live(w, a) ==> (w.asms[a].key in inFlight <==> a < w.wired)
  }

  ghost predicate PrivateLive(w: Work) {
    forall a: nat :: w.wired <= a < |w.asms| ==> Live(w, a)
  }

  /** The batch still to be staged names none of the keys already staged from it. */
  ghost predicate TodoOk(ix: Index, w: Work, inFlight: set<ExpertKey>, f: Forward) {
    f.Stage? ==>
      && KeysDistinct(f.todo)
      && (forall a: nat, i: nat :: w.wired <= a < |w.asms| && i < |f.todo| && f.todo[i].0 >= 0 ==>
            w.asms[a].key != KeyOf(f.todo[i]))
      && (f.check.InLruAgain? ==> f.todo != [] && 0 <= f.todo[0].0 && KeyOf(f.todo[0]) !in inFlight)
  }

  ghost predicate Unique(ix: Index, s: Sys) {
    OneLive(s.work) && MarkedOk(s.work, s.inFlight) && PrivateLive(s.work) && TodoOk(ix, s.work, s.inFlight, s.forward)
  }

  // ---------------------------------------------------------------- steps

  lemma LivesSame(w: Work, v: Work, inFlight: set<ExpertKey>)
    requires SameLives(w, v) && OneLive(w) && MarkedOk(w, inFlight) && PrivateLive(w)
    ensures OneLive(v) && MarkedOk(v, inFlight) && PrivateLive(v)
  {
    assert forall a: nat :: Live(v, a) <==> Live(w, a);
  }

  lemma CreateUnique(ix: Index, w: Work, inFlight: set<ExpertKey>, f: Forward)
    requires OneLive(w) && MarkedOk(w, inFlight) && PrivateLive(w) && TodoOk(ix, w, inFlight, f)
    requires f.Stage? && f.check.InLruAgain? && f.todo != [] && f.todo[0].0 >= 0 && w.wired <= |w.asms|
    ensures var v, g := DoCreate(ix, w, KeyOf(f.todo[0])), f.(todo := f.todo[1..], check := InLru);
      OneLive(v) && MarkedOk(v, inFlight) && PrivateLive(v) && TodoOk(ix, v, inFlight, g)
  {
    hide Parts, TotalSize, NonEmptyParts;
    var k, n := KeyOf(f.todo[0]), |w.asms|;
    var v := DoCreate(ix, w, k);
    assert v.asms[n].key == k && Live(v, n);
    forall a: nat | a < n ensures Live(v, a) <==> Live(w, a) {
      assert v.asms[a] == w.asms[a];
    }
    forall a: nat | a < n && Live(v, a) ensures v.asms[a].key != k {
      assert Live(w, a);
    }
  }

  lemma StageUnique(ix: Index, s: Sys)
    requires Unique(ix, s) && s.forward.Stage? && s.forward.todo != [] && s.work.wired <= |s.work.asms|
    ensures Unique(ix, DoStage(ix, s))
  {
    hide OneLive, MarkedOk, PrivateLive, DoCreate, Parts, TotalSize;
    if s.forward.check.InLruAgain? {
      CreateUnique(ix, s.work, s.inFlight, s.forward);
    }
  }

  lemma MarkUnique(ix: Index, disk: Disk, s: Sys, runs: seq<Run>)
    requires Unique(ix, s) && s.forward.Stage? && s.work.wired <= |s.work.asms|
    ensures Unique(ix, DoMark(s, runs))
  {
    var w, v := s.work, DoWire(s.work, runs);
    hide Resume;
    assert forall a: nat :: Live(v, a) <==> Live(w, a);
    forall a: nat | Live(v, a) ensures v.asms[a].key in s.inFlight + PrivateKeys(w) {
      assert Live(w, a);
      if a >= w.wired { assert w.asms[a].key in PrivateKeys(w); }
    }
    assert TodoOk(ix, v, DoMark(s, runs).inFlight, DoMark(s, runs).forward) by { ResumeNotStage(s, runs); }
  }

  lemma ResumeNotStage(s: Sys, runs: seq<Run>)
    requires s.forward.Stage?
    ensures !DoMark(s, runs).forward.Stage?
  {
  }

  lemma EraseUnique(ix: Index, s: Sys, a: nat, v: Work)
    requires Unique(ix, s) && a < s.work.wired <= |s.work.asms| && Live(s.work, a)
    requires v.asms == s.work.asms[a := s.work.asms[a].(erased := true)] && v.wired == s.work.wired
    ensures Unique(ix, s.(work := v, inFlight := s.inFlight - {s.work.asms[a].key}))
  {
    var w := s.work;
    assert forall b: nat :: Live(v, b) <==> Live(w, b) && b != a;
    forall b: nat | Live(v, b) ensures v.asms[b].key != w.asms[a].key {
      assert Live(w, b) && (b < a || a < b);
    }
  }

  /** The steps that leave keys, erasures and the in-flight set alone and start no batch. */
  lemma OtherUnique(ix: Index, s: Sys, t: Sys)
    requires Unique(ix, s) && SameLives(s.work, t.work) && t.inFlight == s.inFlight
    requires t.forward == s.forward || !t.forward.Stage?
          || (t.forward.check.InLru? && KeysDistinct(t.forward.todo) && t.work.wired == |t.work.asms|)
    ensures Unique(ix, t)
  {
    LivesSame(s.work, t.work, s.inFlight);
  }

  lemma ErasedIsLive(ix: Index, disk: Disk, w: Work, j: nat)
    requires Inv(ix, disk, w) && Doing(w, j, Erase)
    ensures Cur(w, j).assem < w.wired <= |w.asms| && Live(w, Cur(w, j).assem)
  {
    var a := Cur(w, j).assem;
    assert IsSlice(w.jobs, j, w.jobs[j].phase.slice);
    assert AssemblyOk(ix, disk, w, a) && Hands(w.jobs[j], a);
    hide BufferExact, CountExact, PhasesOk, SomePart;
  }

  lemma ScatterUnique(ix: Index, disk: Disk, s: Sys, j: nat, act: Act)
    requires Unique(ix, s) && Inv(ix, disk, s.work) && Doing(s.work, j, act) && Valid(s.lru)
    ensures Unique(ix, DoScatter(s, j, act))
  {
    if act.Erase? {
      ErasedIsLive(ix, disk, s.work, j);
      hide Inv, Unique, Valid;
      EraseUnique(ix, s, Cur(s.work, j).assem, DoErase(s.work, j));
    } else {
      hide Inv, Unique, Valid, CopySafe, Insert;
      OtherUnique(ix, s, DoScatter(s, j, act));
    }
  }

  predicate Getting(step: Step) {
    step.GetNext? || step.StartGet? || step.LoadSync? || step.Return? || step.TimeOut? || step.PinServed?
  }

  lemma GetterUnique(ix: Index, disk: Disk, s: Sys, step: Step)
    requires Unique(ix, s) && Books(s) && Enabled(ix, disk, s, step) && Getting(step)
    ensures Unique(ix, Do(ix, disk, s, step))
  {
    hide GoodIndex, Unique, Valid, SyncLoad, CopyTo, Insert, Pin, Parts, TotalSize, Loadable, Over, Resized,
         PendingOk, QueueOk, SubmitOk, LockOk, InFlightOk, DoStage, DoMark, DoSubmit, DoRead, DoScatter;
    OtherUnique(ix, s, Do(ix, disk, s, step));
  }

  lemma OtherStepUnique(ix: Index, disk: Disk, s: Sys, step: Step)
    requires Unique(ix, s) && Books(s) && Enabled(ix, disk, s, step) && DistinctBatch(step) && !Getting(step)
    requires !step.StageNext? && !step.MarkInFlight? && !step.Scattering?
    ensures Unique(ix, Do(ix, disk, s, step))
  {
    hide GoodIndex, Unique, Valid, Insert, Pin, Boost, RunReadable, PendingOk, QueueOk, SubmitOk, LockOk, InFlightOk,
         DoGet, DoStartGet, DoLoad, DoReturn;
    OtherUnique(ix, s, Do(ix, disk, s, step));
  }

  lemma StepUnique(ix: Index, disk: Disk, s: Sys, step: Step)
    requires GoodIndex(ix, disk) && Safe(ix, disk, s) && Unique(ix, s) && Books(s) && Enabled(ix, disk, s, step)
      && DistinctBatch(step)
    ensures Unique(ix, Do(ix, disk, s, step))
  {
    SafeInv(ix, disk, s);
    assert s.work.wired <= |s.work.asms|;
    hide GoodIndex, Safe, Unique, Books, Inv, DoStage, DoMark, DoScatter, DistinctBatch;
    match step {
      case StageNext => StageUnique(ix, s);
      case MarkInFlight(runs) => MarkUnique(ix, disk, s, runs);
      case Scattering(j, act) => ScatterUnique(ix, disk, s, j, act);
      case _ => if Getting(step) { GetterUnique(ix, disk, s, step); } else { OtherStepUnique(ix, disk, s, step); }
    }
  }

  lemma {:induction false} RunUnique(ix: Index, disk: Disk, s: Sys, steps: seq<Step>, t: Sys)
    requires GoodIndex(ix, disk) && Safe(ix, disk, s) && Books(s) && Unique(ix, s) && Leads(ix, disk, s, steps, t)
    requires forall i :: 0 <= i < |steps| ==> DistinctBatch(steps[i])
    ensures Safe(ix, disk, t) && Books(t) && Unique(ix, t)
    decreases |steps|
  {
    hide GoodIndex, Safe, Books, Unique, Enabled, Do, DistinctBatch;
    if steps != [] {
      StepSafe(ix, disk, s, steps[0]);
      StepBooks(ix, disk, s, steps[0]);
      StepUnique(ix, disk, s, steps[0]);
      RunUnique(ix, disk, Do(ix, disk, s, steps[0]), steps[1..], t);
    }
  }

  /** Staging never duplicates work: at any time at most one unfinished assembly
      per key, and the in-flight set is exactly the keys of the shared ones. */
  lemma OneAssemblyPerKey(ix: Index, disk: Disk, s: Sys, steps: seq<Step>, t: Sys)
    requires GoodIndex(ix, disk) && Initial(s) && Leads(ix, disk, s, steps, t)
    requires forall i :: 0 <= i < |steps| ==> DistinctBatch(steps[i])
    ensures OneLive(t.work)
    ensures forall k :: k in t.inFlight <==> LiveKey(t.work, k)
  {
    hide GoodIndex, Leads, Safe, DistinctBatch, PendingOk, QueueOk, SubmitOk, LockOk, WiredOk, OneLive, PrivateLive,
         TodoOk;
    InitialSafe(ix, disk, s);
    InitialBooks(s);
    InitialUnique(ix, s);
    RunUnique(ix, disk, s, steps, t);
    forall k | LiveKey(t.work, k) ensures k in t.inFlight {
      var a: nat :| a < t.work.wired && Live(t.work, a) && t.work.asms[a].key == k;
    }
  }

  lemma InitialUnique(ix: Index, s: Sys)
    requires Initial(s)
    ensures Unique(ix, s)
  {
  }
}
