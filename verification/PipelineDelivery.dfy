/** Delivery: what a quiet pipeline has handed over, exactly, when reads may fail.
    An expert one of whose reads failed is never delivered and stays in flight
    for good; every other expert has been delivered exactly once. */
module PipelineDelivery {
  import opened LruModel
  import opened ExpertDisk
  import opened Runs
  import opened Assembling
  import opened AssemblySteps
  import opened Wiring
  import opened WiringSteps
  import opened Pipeline
  import opened PipelineSafety
  import opened PipelineBooks
  import opened PipelineRuns
  import opened PipelineUnique
  import opened PipelineProgress

  // ---------------------------------------------------------------- lost reads

  /** The read ended in failure. */
  predicate Failed(ph: Phase) {
    ph == Returned(false) || ph == Done(false)
  }

  predicate FailedJob(jobs: seq<Job>, j: nat) {
    j < |jobs| && Failed(jobs[j].phase)
  }

  /** A read that carries a projection of assembly a failed. */
  ghost predicate LostPart(w: Work, a: nat) {
    exists j: nat, i: nat :: IsSlice(w.jobs, j, i) && Sl(w.jobs, j, i).assem == a && FailedJob(w.jobs, j)
  }

  /** The key was staged, and one of its reads failed. */
  ghost predicate LostKey(w: Work, k: ExpertKey) {
    exists a: nat :: a < w.wired && a < |w.asms| && w.asms[a].key == k && LostPart(w, a)
  }

  /** An assembly with a lost part is alive and has not been handed over. */
  lemma LostIsUndelivered(ix: Index, disk: Disk, w: Work, a: nat)
    requires Inv(ix, disk, w) && LostPart(w, a)
    ensures a < w.wired <= |w.asms| && !w.asms[a].erased && w.asms[a].handovers == 0
  {
    var j: nat, i: nat :| IsSlice(w.jobs, j, i) && Sl(w.jobs, j, i).assem == a && FailedJob(w.jobs, j);
    assert Pending(w.jobs[j].phase, i);
    PendingAlive(ix, disk, w, j, i);
    assert AssemblyOk(ix, disk, w, a);
    assert HandoverExact(w, a);
  }

  // ---------------------------------------------------------------- quiescence

  ghost predicate AllDone(jobs: seq<Job>) {
    forall j :: 0 <= j < |jobs| ==> jobs[j].phase.Done?
  }

  /** With nothing pending every read is over. */
  lemma NothingPendingAllDone(s: Sys, j: nat)
    requires Books(s) && s.pending == 0 && !s.forward.Submit? && j < |s.work.jobs|
    ensures s.work.jobs[j].phase.Done?
  {
    assert !Unsubmitted(s.work.jobs, j);
    assert j !in OutstandingJobs(s.work.jobs);
  }

  /** Once every read is over, an assembly that lost no part has nothing left to count down. */
  lemma NothingLeft(w: Work, a: nat)
    requires AllDone(w.jobs) && !LostPart(w, a)
    ensures Undecremented(w.jobs, a) == {} && !Handing(w, a)
  {
    forall j, i | 0 <= j < |w.jobs| && 0 <= i < |w.jobs[j].run.slices| && w.jobs[j].run.slices[i].assem == a
      ensures !Pending(w.jobs[j].phase, i)
    {
      assert IsSlice(w.jobs, j, i) && Sl(w.jobs, j, i).assem == a;
      assert !FailedJob(w.jobs, j);
    }
  }

  /** Once every read is over an assembly has been handed over, once, unless it lost a part. */
  lemma DeliveredUnlessLost(ix: Index, disk: Disk, w: Work, a: nat)
    requires Inv(ix, disk, w) && a < w.wired && AllDone(w.jobs)
    ensures a < |w.asms| && (w.asms[a].erased <==> !LostPart(w, a))
    ensures w.asms[a].handovers == if LostPart(w, a) then 0 else 1
  {
    if LostPart(w, a) {
      LostIsUndelivered(ix, disk, w, a);
    } else {
      NothingLeft(w, a);
      assert AssemblyOk(ix, disk, w, a);
      hide Static, PhasesOk, BufferExact, LostPart, Handing;
    }
  }

  lemma LiveIsLost(w: Work, k: ExpertKey)
    requires LiveKey(w, k) && w.wired == |w.asms|
    requires forall a: nat :: a < |w.asms| ==> (w.asms[a].erased <==> !LostPart(w, a))
    ensures LostKey(w, k)
  {
    hide LostPart;
    var a: nat :| a < w.wired && Live(w, a) && w.asms[a].key == k;
    assert LostPart(w, a);
  }

  /** Quiescence, exactly, in every run, failed reads and refused submissions
      included: when no read is pending and the forward thread is idle,
      every staged expert has had its one insertion unless one of its own reads
      failed; one that lost a read was never inserted; and nothing but keys with a
      lost read is in flight. */
  lemma QuietExactly(ix: Index, disk: Disk, s: Sys, steps: seq<Step>, t: Sys)
    requires GoodIndex(ix, disk) && Initial(s) && Leads(ix, disk, s, steps, t)
    requires t.pending == 0 && t.forward.Idle?
    ensures t.work.wired == |t.work.asms|
    ensures forall a: nat :: a < |t.work.asms| ==> (t.work.asms[a].erased <==> !LostPart(t.work, a))
    ensures forall a: nat :: a < |t.work.asms| ==> t.work.asms[a].handovers == if LostPart(t.work, a) then 0 else 1
    ensures forall k :: k in t.inFlight ==> LostKey(t.work, k)
  {
    hide GoodIndex, Leads, Initial, Safe, PendingOk, QueueOk, SubmitOk, LockOk, Inv, LostPart, LostKey, LiveKey;
    InitialSafe(ix, disk, s);
    InitialBooks(s);
    RunBooks(ix, disk, s, steps, t);
    SafeInv(ix, disk, t);
    assert AllDone(t.work.jobs) by {
      forall j | 0 <= j < |t.work.jobs| ensures t.work.jobs[j].phase.Done? { NothingPendingAllDone(t, j); }
    }
    forall a: nat | a < t.work.wired
      ensures t.work.asms[a].erased <==> !LostPart(t.work, a)
      ensures t.work.asms[a].handovers == if LostPart(t.work, a) then 0 else 1
    {
      DeliveredUnlessLost(ix, disk, t.work, a);
    }
    forall k | k in t.inFlight ensures LostKey(t.work, k) {
      LiveIsLost(t.work, k);
    }
  }

  ghost predicate NoneFailed(jobs: seq<Job>) {
    forall j :: 0 <= j < |jobs| ==> jobs[j].phase != Done(false)
  }

  /** When no read failed at all, nothing is in flight and everything staged has
      been delivered. */
  lemma QuietMeansDelivered(ix: Index, disk: Disk, s: Sys, steps: seq<Step>, t: Sys)
    requires GoodIndex(ix, disk) && Initial(s) && Leads(ix, disk, s, steps, t)
    requires t.pending == 0 && t.forward.Idle? && NoneFailed(t.work.jobs)
    ensures t.inFlight == {}
    ensures t.work.wired == |t.work.asms|
    ensures forall a :: 0 <= a < |t.work.asms| ==> t.work.asms[a].erased && t.work.asms[a].handovers == 1
  {
    hide GoodIndex, Leads, Initial, Safe, QueueOk, LockOk, LostPart, LostKey;
    QuietExactly(ix, disk, s, steps, t);
    InitialSafe(ix, disk, s);
    InitialBooks(s);
    RunBooks(ix, disk, s, steps, t);
    forall a: nat ensures !LostPart(t.work, a) { NoPartLost(t, a); }
    if k :| k in t.inFlight {
      NoKeyLost(t, k);
    }
  }

  lemma NoPartLost(t: Sys, a: nat)
    requires Books(t) && t.pending == 0 && !t.forward.Submit? && NoneFailed(t.work.jobs)
    ensures !LostPart(t.work, a)
  {
    hide Books;
    if LostPart(t.work, a) {
      var j: nat, i: nat :| IsSlice(t.work.jobs, j, i) && Sl(t.work.jobs, j, i).assem == a && FailedJob(t.work.jobs, j);
      NothingPendingAllDone(t, j);
    }
  }

  lemma NoKeyLost(t: Sys, k: ExpertKey)
    requires forall a: nat :: !LostPart(t.work, a)
    ensures !LostKey(t.work, k)
  {
  }

  /** With different keys inside each batch the in-flight set of a quiet pipeline
      is exactly the keys that lost a read. */
  lemma QuietInFlight(ix: Index, disk: Disk, s: Sys, steps: seq<Step>, t: Sys)
    requires GoodIndex(ix, disk) && Initial(s) && Leads(ix, disk, s, steps, t)
    requires forall i :: 0 <= i < |steps| ==> DistinctBatch(steps[i])
    requires t.pending == 0 && t.forward.Idle?
    ensures forall k :: k in t.inFlight <==> LostKey(t.work, k)
  {
    hide GoodIndex, Leads, Initial, Safe, Books, Inv, DistinctBatch, LiveKey, LostKey, OneLive;
    QuietExactly(ix, disk, s, steps, t);
    InitialSafe(ix, disk, s);
    InitialBooks(s);
    RunBooks(ix, disk, s, steps, t);
    SafeInv(ix, disk, t);
    OneAssemblyPerKey(ix, disk, s, steps, t);
    forall k | LostKey(t.work, k) ensures LiveKey(t.work, k) {
      LostIsLive(ix, disk, t.work, k);
    }
  }

  lemma LostIsLive(ix: Index, disk: Disk, w: Work, k: ExpertKey)
    requires Inv(ix, disk, w) && LostKey(w, k)
    ensures LiveKey(w, k)
  {
    hide Inv, LostPart;
    var a: nat :| a < w.wired && a < |w.asms| && w.asms[a].key == k && LostPart(w, a);
    LostIsUndelivered(ix, disk, w, a);
    assert Live(w, a);
  }

  // ---------------------------------------------------------------- which reads fail

  /** The step makes read j fail: the read itself, or a submission refused by a stopped reader. */
  ghost predicate Fails(s: Sys, step: Step, j: nat) {
    || step == FinishRead(j, false)
    || (step.SubmitNext? && s.forward.Submit? && s.forward.job == j && j < |s.work.jobs|
      && s.work.jobs[j].phase.Built? && !s.running)
  }

  /** What was there stays: keys of assemblies, runs of reads; only staging adds
      assemblies; and exactly the reads the step makes fail are newly failed. */
  ghost predicate Extends(s: Sys, step: Step, v: Work) {
    && |s.work.asms| <= |v.asms| && |s.work.jobs| <= |v.jobs| && s.work.wired <= v.wired
    && (!step.StageNext? ==> |v.asms| == |s.work.asms|)
    && (forall a: nat :: a < |s.work.asms| ==> v.asms[a].key == s.work.asms[a].key)
    && (forall j: nat :: j < |s.work.jobs| ==> v.jobs[j].run == s.work.jobs[j].run)
    && (forall j: nat :: FailedJob(v.jobs, j) <==> FailedJob(s.work.jobs, j) || Fails(s, step, j))
  }

  lemma SubmitExtends(s: Sys)
    requires s.forward.Submit? && s.forward.job < |s.work.jobs|
    requires s.work.jobs[s.forward.job].phase.Built? || s.work.jobs[s.forward.job].phase.Counted?
    ensures Extends(s, SubmitNext, DoSubmit(s).work)
  {
    hide Resume;
  }

  lemma MarkExtends(s: Sys, runs: seq<Run>)
    requires s.forward.Stage? && s.work.wired <= |s.work.asms|
    ensures Extends(s, MarkInFlight(runs), DoMark(s, runs).work)
  {
    hide Resume, PrivateKeys;
  }

  lemma StageExtends(ix: Index, s: Sys)
    requires s.forward.Stage? && s.forward.todo != []
    ensures Extends(s, StageNext, DoStage(ix, s).work)
  {
    hide Parts, TotalSize, NewAssembly;
  }

  lemma ScatterExtends(s: Sys, i: nat, act: Act)
    requires Doing(s.work, i, act) && Valid(s.lru)
    ensures Extends(s, Scattering(i, act), DoScatter(s, i, act).work)
  {
    hide Valid, Insert, CopySafe;
    var v := DoScatter(s, i, act).work;
    assert !FailedJob(s.work.jobs, i) && !FailedJob(v.jobs, i);
    assert |v.jobs| == |s.work.jobs| && forall j: nat :: j < |v.jobs| && j != i ==> v.jobs[j] == s.work.jobs[j];
  }

  lemma ReaderExtends(ix: Index, disk: Disk, s: Sys, step: Step)
    requires Enabled(ix, disk, s, step) && (step.Take? || step.FinishRead? || step.Complete?)
    ensures Extends(s, step, Do(ix, disk, s, step).work)
  {
    hide RunReadable;
  }

  lemma OtherExtends(ix: Index, disk: Disk, s: Sys, step: Step)
    requires Enabled(ix, disk, s, step)
    requires !(step.Take? || step.FinishRead? || step.Scattering? || step.Complete?)
    requires !(step.StageNext? || step.MarkInFlight? || step.SubmitNext?)
    ensures Extends(s, step, Do(ix, disk, s, step).work)
  {
    hide GoodIndex, Valid, SyncLoad, CopyTo, Insert, Pin, Boost, Parts, TotalSize, Loadable, Over, Resized;
    assert Do(ix, disk, s, step).work == s.work;
  }

  lemma StepExtends(ix: Index, disk: Disk, s: Sys, step: Step)
    requires Enabled(ix, disk, s, step) && s.work.wired <= |s.work.asms|
    ensures Extends(s, step, Do(ix, disk, s, step).work)
  {
    hide GoodIndex, Valid, Extends, DoSubmit, DoMark, DoStage, DoScatter;
    match step {
      case SubmitNext => SubmitExtends(s);
      case MarkInFlight(runs) => MarkExtends(s, runs);
      case StageNext => StageExtends(ix, s);
      case Scattering(i, act) => ScatterExtends(s, i, act);
      case Take => ReaderExtends(ix, disk, s, step);
      case FinishRead(_, _) => ReaderExtends(ix, disk, s, step);
      case Complete(_) => ReaderExtends(ix, disk, s, step);
      case _ => OtherExtends(ix, disk, s, step);
    }
  }

  /** A lost part stays lost. */
  lemma StepKeepsLost(s: Sys, step: Step, v: Work, a: nat)
    requires Extends(s, step, v) && LostPart(s.work, a)
    ensures LostPart(v, a)
  {
    var j: nat, i: nat :| IsSlice(s.work.jobs, j, i) && Sl(s.work.jobs, j, i).assem == a && FailedJob(s.work.jobs, j);
    assert IsSlice(v.jobs, j, i) && Sl(v.jobs, j, i).assem == a && FailedJob(v.jobs, j);
  }

  /** Some step of the run makes read j fail. */
  ghost predicate FailsIn(ix: Index, disk: Disk, s: Sys, steps: seq<Step>, j: nat)
    decreases |steps|
  {
    steps != [] && Enabled(ix, disk, s, steps[0])
    && (Fails(s, steps[0], j) || FailsIn(ix, disk, Do(ix, disk, s, steps[0]), steps[1..], j))
  }

  /** Over every run the failed reads are exactly those some step made fail:
      nothing else loses a read and no later step recovers one. */
  lemma {:induction false} FailuresAreForGood(ix: Index, disk: Disk, s: Sys, steps: seq<Step>, t: Sys, j: nat)
    requires GoodIndex(ix, disk) && Safe(ix, disk, s) && Books(s) && Leads(ix, disk, s, steps, t)
    ensures FailedJob(t.work.jobs, j) <==> FailedJob(s.work.jobs, j) || FailsIn(ix, disk, s, steps, j)
    decreases |steps|
  {
    hide GoodIndex, Books, Enabled, Do, Fails, FailedJob, Inv, CacheOk, HeldOk, ForwardOk, AnswersOk;
    if steps != [] {
      assert s.work.wired <= |s.work.asms| by { WiredFits(ix, disk, s); }
      StepExtends(ix, disk, s, steps[0]);
      StepSafe(ix, disk, s, steps[0]);
      StepBooks(ix, disk, s, steps[0]);
      FailuresAreForGood(ix, disk, Do(ix, disk, s, steps[0]), steps[1..], t, j);
    }
  }

  lemma WiredFits(ix: Index, disk: Disk, s: Sys)
    requires GoodIndex(ix, disk) && Safe(ix, disk, s)
    ensures s.work.wired <= |s.work.asms|
  {
    hide GoodIndex, CacheOk, HeldOk, ForwardOk, AnswersOk, PhasesOk, AssemblyOk;
  }

  // ---------------------------------------------------------------- a lost expert stays in flight

  /** What stays true of assembly a of key k, staged no later than n assemblies
      ago, once it has lost a part: k is not staged again. */
  ghost predicate StaysLost(w: Work, a: nat, k: ExpertKey, n: nat) {
    && a < n <= |w.asms| && a < w.wired && w.asms[a].key == k && LostPart(w, a)
    && forall b: nat :: n <= b < |w.asms| ==> w.asms[b].key != k
  }

  lemma StepStaysLost(ix: Index, disk: Disk, s: Sys, step: Step, a: nat, k: ExpertKey, n: nat)
    requires GoodIndex(ix, disk) && Safe(ix, disk, s) && Books(s) && Unique(ix, s) && Enabled(ix, disk, s, step)
    requires DistinctBatch(step) && StaysLost(s.work, a, k, n)
    ensures StaysLost(Do(ix, disk, s, step).work, a, k, n)
  {
    var t := Do(ix, disk, s, step);
    assert s.work.wired <= |s.work.asms| by { WiredFits(ix, disk, s); }
    hide GoodIndex, Safe, Books, Unique, Enabled, Do, DistinctBatch, LostPart, FailedJob, Fails;
    StepExtends(ix, disk, s, step);
    StepKeepsLost(s, step, t.work, a);
    StepSafe(ix, disk, s, step);
    StepUnique(ix, disk, s, step);
    SafeInv(ix, disk, t);
    LostIsUndelivered(ix, disk, t.work, a);
    forall b: nat | n <= b < |t.work.asms| ensures t.work.asms[b].key != k {
      if b < |s.work.asms| {
        assert t.work.asms[b].key == s.work.asms[b].key;
      } else {
        NewIsLive(ix, disk, s, step, b);
        LiveKeysDiffer(ix, t, a, b);
      }
    }
  }

  /** What a step adds is an unfinished assembly. */
  lemma NewIsLive(ix: Index, disk: Disk, s: Sys, step: Step, b: nat)
    requires Enabled(ix, disk, s, step) && |s.work.asms| <= b < |Do(ix, disk, s, step).work.asms|
    requires Extends(s, step, Do(ix, disk, s, step).work)
    ensures Live(Do(ix, disk, s, step).work, b)
  {
    assert step.StageNext?;
    hide GoodIndex, Extends, DoStage;
    CreatedIsLive(ix, s, b);
  }

  lemma CreatedIsLive(ix: Index, s: Sys, b: nat)
    requires s.forward.Stage? && s.forward.todo != [] && |s.work.asms| <= b < |DoStage(ix, s).work.asms|
    ensures Live(DoStage(ix, s).work, b)
  {
    hide Parts, TotalSize, NonEmptyParts, Zeros;
  }

  lemma LiveKeysDiffer(ix: Index, t: Sys, a: nat, b: nat)
    requires Unique(ix, t) && a < b && Live(t.work, a) && Live(t.work, b)
    ensures t.work.asms[a].key != t.work.asms[b].key
  {
    hide MarkedOk, PrivateLive, TodoOk;
  }

  lemma {:induction false} RunStaysLost(ix: Index, disk: Disk, s: Sys, steps: seq<Step>, t: Sys, a: nat, k: ExpertKey,
                                        n: nat)
    requires GoodIndex(ix, disk) && Safe(ix, disk, s) && Books(s) && Unique(ix, s) && Leads(ix, disk, s, steps, t)
    requires forall i :: 0 <= i < |steps| ==> DistinctBatch(steps[i])
    requires StaysLost(s.work, a, k, n)
    ensures StaysLost(t.work, a, k, n) && Safe(ix, disk, t) && Books(t) && Unique(ix, t)
    decreases |steps|
  {
    hide GoodIndex, Safe, Books, Unique, Enabled, Do, DistinctBatch, StaysLost;
    if steps != [] {
      StepSafe(ix, disk, s, steps[0]);
      StepBooks(ix, disk, s, steps[0]);
      StepUnique(ix, disk, s, steps[0]);
      StepStaysLost(ix, disk, s, steps[0], a, k, n);
      RunStaysLost(ix, disk, Do(ix, disk, s, steps[0]), steps[1..], t, a, k, n);
    }
  }

  /** What holds after a run with distinct batches. */
  lemma ReachedFacts(ix: Index, disk: Disk, s: Sys, before: seq<Step>, t: Sys)
    requires GoodIndex(ix, disk) && Initial(s) && Leads(ix, disk, s, before, t)
    requires forall i :: 0 <= i < |before| ==> DistinctBatch(before[i])
    ensures Safe(ix, disk, t) && Books(t) && Unique(ix, t) && Inv(ix, disk, t.work)
  {
    hide GoodIndex, Leads, Initial, Safe, Books, Unique, Inv, DistinctBatch;
    InitialSafe(ix, disk, s);
    InitialBooks(s);
    InitialUnique(ix, s);
    RunUnique(ix, disk, s, before, t);
    SafeInv(ix, disk, t);
  }

  /** A failed read is for good: from any reachable state in which an expert has
      lost a read, however the run goes on, its key stays in flight, its assembly
      is never handed over, and it is never staged again. */
  lemma LostForGood(ix: Index, disk: Disk, s: Sys, before: seq<Step>, t: Sys, after: seq<Step>, u: Sys, a: nat)
    requires GoodIndex(ix, disk) && Initial(s) && Leads(ix, disk, s, before, t) && Leads(ix, disk, t, after, u)
    requires forall i :: 0 <= i < |before| ==> DistinctBatch(before[i])
    requires forall i :: 0 <= i < |after| ==> DistinctBatch(after[i])
    requires LostPart(t.work, a)
    ensures a < |t.work.asms| <= |u.work.asms| && u.work.asms[a].key == t.work.asms[a].key
    ensures t.work.asms[a].key in u.inFlight && u.work.asms[a].handovers == 0
    ensures forall b: nat :: |t.work.asms| <= b < |u.work.asms| ==> u.work.asms[b].key != t.work.asms[a].key
  {
    hide GoodIndex, Leads, Initial, Safe, Books, Unique, Inv, DistinctBatch, LostPart, StaysLost;
    ReachedFacts(ix, disk, s, before, t);
    LostIsUndelivered(ix, disk, t.work, a);
    var k := t.work.asms[a].key;
    LostStart(t.work, a, k);
    RunStaysLost(ix, disk, t, after, u, a, k, |t.work.asms|);
    LostEnd(ix, disk, u, a, k, |t.work.asms|);
  }

  lemma LostStart(w: Work, a: nat, k: ExpertKey)
    requires a < w.wired <= |w.asms| && w.asms[a].key == k && LostPart(w, a)
    ensures StaysLost(w, a, k, |w.asms|)
  {
    hide LostPart;
  }

  lemma LostEnd(ix: Index, disk: Disk, u: Sys, a: nat, k: ExpertKey, n: nat)
    requires GoodIndex(ix, disk) && Safe(ix, disk, u) && Unique(ix, u) && StaysLost(u.work, a, k, n)
    ensures a < n <= |u.work.asms| && u.work.asms[a].key == k && k in u.inFlight && u.work.asms[a].handovers == 0
    ensures forall b: nat :: n <= b < |u.work.asms| ==> u.work.asms[b].key != k
  {
    hide GoodIndex, Safe, Unique, Inv, LostPart;
    SafeInv(ix, disk, u);
    LostIsUndelivered(ix, disk, u.work, a);
    LiveIsMarked(ix, u, a);
  }

  lemma LiveIsMarked(ix: Index, t: Sys, a: nat)
    requires Unique(ix, t) && a < t.work.wired && Live(t.work, a)
    ensures t.work.asms[a].key in t.inFlight
  {
    hide OneLive, PrivateLive, TodoOk;
  }

  lemma LostKeyInFlight(ix: Index, disk: Disk, s: Sys, before: seq<Step>, t: Sys, after: seq<Step>, u: Sys,
                        k: ExpertKey)
    requires GoodIndex(ix, disk) && Initial(s) && Leads(ix, disk, s, before, t) && Leads(ix, disk, t, after, u)
    requires forall i :: 0 <= i < |before| ==> DistinctBatch(before[i])
    requires forall i :: 0 <= i < |after| ==> DistinctBatch(after[i])
    requires LostKey(t.work, k)
    ensures k in u.inFlight
  {
    hide GoodIndex, Leads, Initial, DistinctBatch, LostPart;
    var a: nat :| a < t.work.wired && a < |t.work.asms| && t.work.asms[a].key == k && LostPart(t.work, a);
    LostForGood(ix, disk, s, before, t, after, u, a);
  }

  /** Once as many keys as the cap have lost a read, speculation has ended for
      good: in every later state starting it does nothing. */
  lemma LostKeysEndSpeculation(ix: Index, disk: Disk, s: Sys, before: seq<Step>, t: Sys, after: seq<Step>, u: Sys,
                               lost: set<ExpertKey>, batch: seq<(int, int)>)
    requires GoodIndex(ix, disk) && Initial(s) && Leads(ix, disk, s, before, t) && Leads(ix, disk, t, after, u)
    requires forall i :: 0 <= i < |before| ==> DistinctBatch(before[i])
    requires forall i :: 0 <= i < |after| ==> DistinctBatch(after[i])
    requires |lost| >= MAX_PREFETCH_IN_FLIGHT && forall k :: k in lost ==> LostKey(t.work, k)
    ensures DoStartPrefetch(u, batch, false) == u
  {
    hide GoodIndex, Leads, Initial, DistinctBatch, LostKey;
    forall k | k in lost ensures k in u.inFlight {
      LostKeyInFlight(ix, disk, s, before, t, after, u, k);
    }
    assert u.inFlight == lost + (u.inFlight - lost);
  }

  // ---------------------------------------------------------------- runs that deliver and runs that lose

  lemma {:induction false} LeadsConcat(ix: Index, disk: Disk, s: Sys, front: seq<Step>, t: Sys, back: seq<Step>, u: Sys)
    requires Leads(ix, disk, s, front, t) && Leads(ix, disk, t, back, u)
    ensures Leads(ix, disk, s, front + back, u)
    decreases |front|
  {
    hide Enabled, Do;
    if front == [] {
      assert front + back == back;
    } else {
      LeadsConcat(ix, disk, Do(ix, disk, s, front[0]), front[1..], t, back, u);
      assert (front + back)[1..] == front[1..] + back;
    }
  }

  lemma LeadsThen(ix: Index, disk: Disk, s: Sys, steps: seq<Step>, t: Sys, step: Step)
    requires Leads(ix, disk, s, steps, t) && Enabled(ix, disk, t, step)
    ensures Leads(ix, disk, s, steps + [step], Do(ix, disk, t, step))
  {
    hide Enabled, Do;
    assert Leads(ix, disk, Do(ix, disk, t, step), [], Do(ix, disk, t, step));
    assert [step][1..] == [];
    assert Leads(ix, disk, t, [step], Do(ix, disk, t, step));
    LeadsConcat(ix, disk, s, steps, t, [step], Do(ix, disk, t, step));
  }

  lemma InternalKeepsRunning(ix: Index, disk: Disk, s: Sys, step: Step)
    requires Enabled(ix, disk, s, step) && Internal(step)
    ensures Do(ix, disk, s, step).running == s.running
  {
    hide GoodIndex, Valid, SyncLoad, CopyTo, Insert, Pin, Boost, Parts, TotalSize, Loadable, Over, Resized, RunReadable,
         CopySafe, Resume;
  }

  /** While the reader runs, steps of the engine's own without a failing read fail nothing. */
  lemma {:induction false} WorkingFailsNothing(ix: Index, disk: Disk, s: Sys, steps: seq<Step>, j: nat)
    requires s.running && Working(ix, disk, s, steps)
    ensures !FailsIn(ix, disk, s, steps, j)
    ensures forall i :: 0 <= i < |steps| ==> DistinctBatch(steps[i])
    decreases |steps|
  {
    hide Enabled, Do, FutilePoll, KeysDistinct;
    if steps != [] {
      InternalKeepsRunning(ix, disk, s, steps[0]);
      WorkingFailsNothing(ix, disk, Do(ix, disk, s, steps[0]), steps[1..], j);
    }
  }

  /** At rest nothing is pending. */
  lemma RestIsQuiet(s: Sys)
    requires Books(s) && !Busy(s)
    ensures s.pending == 0 && s.forward.Idle?
  {
    assert OutstandingJobs(s.work.jobs) == {};
  }

  /** The engine comes to rest without losing a read it had not lost before. */
  lemma SettlesUnharmed(ix: Index, disk: Disk, s: Sys, steps: seq<Step>, t: Sys) returns (more: seq<Step>, u: Sys)
    requires GoodIndex(ix, disk) && Initial(s) && Leads(ix, disk, s, steps, t) && t.running
    ensures Leads(ix, disk, t, more, u) && forall i :: 0 <= i < |more| ==> DistinctBatch(more[i])
    ensures u.pending == 0 && u.forward.Idle?
    ensures forall j: nat :: FailedJob(u.work.jobs, j) <==> FailedJob(t.work.jobs, j)
  {
    hide GoodIndex, Leads, Initial, Safe, Books, Busy, DistinctBatch, FailedJob, Working, FailsIn;
    InitialSafe(ix, disk, s);
    InitialBooks(s);
    RunBooks(ix, disk, s, steps, t);
    more, u := Settles(ix, disk, s, steps, t);
    RunBooks(ix, disk, t, more, u);
    RestIsQuiet(u);
    WorkingFailsNothing(ix, disk, t, more, 0);
    forall j: nat ensures FailedJob(u.work.jobs, j) <==> FailedJob(t.work.jobs, j) {
      FailuresAreForGood(ix, disk, t, more, u, j);
      WorkingFailsNothing(ix, disk, t, more, j);
    }
  }

  /** Delivery is possible: from every reachable state in which the reader runs
      and no read has failed, some continuation delivers everything staged. */
  lemma CanDeliver(ix: Index, disk: Disk, s: Sys, steps: seq<Step>, t: Sys) returns (more: seq<Step>, u: Sys)
    requires GoodIndex(ix, disk) && Initial(s) && Leads(ix, disk, s, steps, t) && t.running
    requires forall j: nat :: !FailedJob(t.work.jobs, j)
    ensures Leads(ix, disk, t, more, u) && u.inFlight == {} && u.forward.Idle?
    ensures forall a :: 0 <= a < |u.work.asms| ==> u.work.asms[a].erased && u.work.asms[a].handovers == 1
  {
    hide GoodIndex, Leads, Initial, DistinctBatch, NoneFailed;
    more, u := SettlesUnharmed(ix, disk, s, steps, t);
    LeadsConcat(ix, disk, s, steps, t, more, u);
    assert NoneFailed(u.work.jobs) by { NoFailedJobs(u.work.jobs); }
    QuietMeansDelivered(ix, disk, s, steps + more, u);
  }

  lemma NoFailedJobs(jobs: seq<Job>)
    requires forall j: nat :: !FailedJob(jobs, j)
    ensures NoneFailed(jobs)
  {
    forall j | 0 <= j < |jobs| ensures jobs[j].phase != Done(false) { assert !FailedJob(jobs, j); }
  }

  /** The forward thread part-way through staging the one key: after StartPrefetch,
      the two checks, and the making of its assembly. */
  function Checking(s: Sys, key: ExpertKey, check: Check): Sys {
    s.(forward := Stage([EntryOf(key)], check, Back))
  }

  function Staged(ix: Index, s: Sys, key: ExpertKey): Sys {
    s.(forward := Stage([], InLru, Back), work := Work([NewAssembly(ix, key)], [], 0))
  }

  predicate Stageable(ix: Index, key: ExpertKey) {
    key.layer < ix.numLayers && key.expertId < 0x1_0000 && TotalSize(Parts(ix, key)) > 0
  }

  /** The four steps that stage one key. */
  lemma StagingSteps(ix: Index, disk: Disk, s: Sys, key: ExpertKey)
    requires Initial(s) && Stageable(ix, key)
    ensures var start := StartPrefetch([EntryOf(key)], true);
      Enabled(ix, disk, s, start) && Do(ix, disk, s, start) == Checking(s, key, InLru) && DistinctBatch(start)
    ensures Checks(ix, disk, Checking(s, key, InLru), Checking(s, key, InFlight))
    ensures Checks(ix, disk, Checking(s, key, InFlight), Checking(s, key, InLruAgain))
    ensures Checks(ix, disk, Checking(s, key, InLruAgain), Staged(ix, s, key))
  {
    hide Parts, TotalSize, NewAssembly;
    var batch := [EntryOf(key)];
    assert KeyOf(batch[0]) == key && batch[1..] == [];
  }

  /** StageNext leads from s to t. */
  ghost predicate Checks(ix: Index, disk: Disk, s: Sys, t: Sys) {
    Enabled(ix, disk, s, StageNext) && Do(ix, disk, s, StageNext) == t && DistinctBatch(StageNext)
  }

  lemma StagesOne(ix: Index, disk: Disk, s: Sys, key: ExpertKey) returns (steps: seq<Step>)
    requires Initial(s) && Stageable(ix, key)
    ensures Leads(ix, disk, s, steps, Staged(ix, s, key)) && forall i :: 0 <= i < |steps| ==> DistinctBatch(steps[i])
  {
    StagingSteps(ix, disk, s, key);
    assert Leads(ix, disk, s, [], s);
    hide Enabled, Do, Leads, Initial, Parts, TotalSize, NewAssembly, DistinctBatch, Checking, Staged;
    steps := [StartPrefetch([EntryOf(key)], true)];
    LeadsThen(ix, disk, s, [], s, steps[0]);
    assert [] + steps == steps;
    LeadsThen(ix, disk, s, steps, Checking(s, key, InLru), StageNext);
    steps := steps + [StageNext];
    LeadsThen(ix, disk, s, steps, Checking(s, key, InFlight), StageNext);
    steps := steps + [StageNext];
    LeadsThen(ix, disk, s, steps, Checking(s, key, InLruAgain), StageNext);
    steps := steps + [StageNext];
  }

  lemma {:induction false} SomePositive(parts: seq<Loc>) returns (p: nat)
    requires TotalSize(parts) > 0
    ensures p < |parts| && parts[p].size > 0
  {
    if parts[0].size > 0 {
      p := 0;
    } else {
      p := SomePositive(parts[1..]);
      p := p + 1;
    }
  }

  /** The runs of the one staged key: at least one, each with slices for assembly 0. */
  lemma RunsOfOne(ix: Index, s: Sys, key: ExpertKey) returns (runs: seq<Run>)
    requires Stageable(ix, key)
    ensures Wireable(ix, Staged(ix, s, key).work, runs) && runs != []
    ensures runs[0].slices != [] && runs[0].slices[0].assem == 0
  {
    var asms := [NewAssembly(ix, key)];
    var ios := BatchIos(ix, asms, 0, 1);
    var p := SomePositive(Parts(ix, key));
    hide BatchIos, Flat, PlacedAll, OffsetOf;
    runs := SingleRuns(ios);
    SingleRunsRegroup(ios);
    var r, i := PartInRuns(ix, asms, 0, 1, runs, 0, p);
    assert Tight(runs[0]);
    var q := SliceFromPart(ix, asms, 0, 1, runs, 0, 0);
  }

  lemma MarksOne(ix: Index, disk: Disk, s: Sys, key: ExpertKey, runs: seq<Run>)
    requires Initial(s) && Wireable(ix, Staged(ix, s, key).work, runs) && runs != []
    ensures var t := Staged(ix, s, key); var m := DoMark(t, runs);
      && Enabled(ix, disk, t, MarkInFlight(runs)) && Do(ix, disk, t, MarkInFlight(runs)) == m
      && m.work == Work(t.work.asms, JobsOf(runs), 1) && m.forward == Submit(0, Back) && m.running == s.running
      && m.queue == []
  {
    assert [] + JobsOf(runs) == JobsOf(runs);
  }

  /** Counting, queueing and taking the first read. */
  lemma SubmitsFirst(ix: Index, disk: Disk, m: Sys, runs: seq<Run>) returns (steps: seq<Step>, t: Sys)
    requires m.work.jobs == JobsOf(runs) && runs != [] && m.forward == Submit(0, Back) && m.running && m.queue == []
    ensures Leads(ix, disk, m, steps, t) && forall i :: 0 <= i < |steps| ==> DistinctBatch(steps[i])
    ensures t.running && t.work == SetPhase(m.work, 0, Reading)
  {
    var c := m.(work := SetPhase(m.work, 0, Counted), pending := m.pending + 1);
    assert Enabled(ix, disk, m, SubmitNext) && Do(ix, disk, m, SubmitNext) == c;
    assert Enabled(ix, disk, c, SubmitNext);
    var q := Do(ix, disk, c, SubmitNext);
    assert q.work == SetPhase(m.work, 0, Queued) && q.queue == [0] && q.running;
    assert Enabled(ix, disk, q, Take);
    t := Do(ix, disk, q, Take);
    assert t.work == SetPhase(m.work, 0, Reading) && t.running;
    assert Leads(ix, disk, m, [], m);
    hide Enabled, Do, Leads;
    LeadsThen(ix, disk, m, [], m, SubmitNext);
    LeadsThen(ix, disk, m, [] + [SubmitNext], c, SubmitNext);
    steps := [] + [SubmitNext] + [SubmitNext];
    LeadsThen(ix, disk, m, steps, q, Take);
    steps := steps + [Take];
  }

  /** Staging one expert from the initial state, up to the first read being made. */
  lemma FirstRead(ix: Index, disk: Disk, s: Sys, key: ExpertKey) returns (steps: seq<Step>, t: Sys)
    requires Initial(s) && s.running && Stageable(ix, key)
    ensures Leads(ix, disk, s, steps, t) && forall i :: 0 <= i < |steps| ==> DistinctBatch(steps[i])
    ensures t.running && IsSlice(t.work.jobs, 0, 0) && t.work.jobs[0].phase.Reading?
    ensures Sl(t.work.jobs, 0, 0).assem == 0 < |t.work.asms| && t.work.asms[0].key == key
    ensures forall j: nat :: !FailedJob(t.work.jobs, j)
  {
    hide Enabled, Do, Leads, Initial, Parts, TotalSize, DistinctBatch, Wireable, Stageable, Resume, PrivateKeys;
    var runs := RunsOfOne(ix, s, key);
    MarksOne(ix, disk, s, key, runs);
    steps := StagesOne(ix, disk, s, key);
    var m := DoMark(Staged(ix, s, key), runs);
    LeadsThen(ix, disk, s, steps, Staged(ix, s, key), MarkInFlight(runs));
    assert DistinctBatch(MarkInFlight(runs)) by { NotABatch(MarkInFlight(runs)); }
    var more;
    more, t := SubmitsFirst(ix, disk, m, runs);
    steps := steps + [MarkInFlight(runs)];
    LeadsConcat(ix, disk, s, steps, m, more, t);
    steps := steps + more;
  }

  /** One failed read is enough: for every expert with data there is a run in
      which that expert is staged, its first read alone fails, and the engine
      comes to rest with the key in flight. */
  lemma OneFailedRead(ix: Index, disk: Disk, s: Sys, key: ExpertKey) returns (steps: seq<Step>, t: Sys)
    requires GoodIndex(ix, disk) && Initial(s) && s.running
    requires TotalSize(Parts(ix, key)) > 0
    ensures Leads(ix, disk, s, steps, t) && t.pending == 0 && t.forward.Idle?
    ensures forall j: nat :: FailedJob(t.work.jobs, j) <==> j == 0
    ensures key in t.inFlight
  {
    assert Stageable(ix, key);
    hide GoodIndex, Leads, Initial, DistinctBatch, Parts, TotalSize, Enabled, Do, FailedJob, LostPart, Stageable;
    var front, r := FirstRead(ix, disk, s, key);
    var step := FinishRead(0, false);
    FailEnabled(ix, disk, r);
    LeadsThen(ix, disk, s, front, r, step);
    var f := Do(ix, disk, r, step);
    ReadLost(disk, r);
    var more;
    more, t := SettlesUnharmed(ix, disk, s, front + [step], f);
    assert DistinctBatch(step) by { NotABatch(step); }
    LostForGood(ix, disk, s, front + [step], f, more, t, 0);
    steps := front + [step] + more;
    LeadsConcat(ix, disk, s, front + [step], f, more, t);
  }

  lemma NotABatch(step: Step)
    requires !step.StartPrefetch?
    ensures DistinctBatch(step)
  {
  }

  lemma FailEnabled(ix: Index, disk: Disk, r: Sys)
    requires IsSlice(r.work.jobs, 0, 0) && r.work.jobs[0].phase.Reading?
    ensures Enabled(ix, disk, r, FinishRead(0, false))
    ensures Do(ix, disk, r, FinishRead(0, false)) == DoRead(disk, r, 0, false)
  {
  }

  lemma ReadLost(disk: Disk, r: Sys)
    requires IsSlice(r.work.jobs, 0, 0) && r.work.jobs[0].phase.Reading?
    requires forall j: nat :: !FailedJob(r.work.jobs, j)
    ensures var f := DoRead(disk, r, 0, false);
      && f.running == r.running && f.work.asms == r.work.asms
      && LostPart(f.work, Sl(r.work.jobs, 0, 0).assem)
      && forall j: nat :: FailedJob(f.work.jobs, j) <==> j == 0
  {
    var f := DoRead(disk, r, 0, false);
    assert IsSlice(f.work.jobs, 0, 0) && FailedJob(f.work.jobs, 0);
    forall j: nat ensures FailedJob(f.work.jobs, j) <==> j == 0 {
      assert !FailedJob(r.work.jobs, j);
    }
  }
}
