/** Backpressure: no speculative batch takes the keys in flight past the cap by
    as much as its own size. */
module PipelineCap {
  import opened LruModel
  import opened ExpertDisk
  import opened Runs
  import opened Assembling
  import opened AssemblySteps
  import opened WiringSteps
  import opened Pipeline
  import opened PipelineSafety
  import opened PipelineBooks
  import opened PipelineRuns

  lemma {:induction false} PrivateKeysCount(w: Work, hi: nat)
    requires w.wired <= hi <= |w.asms|
    ensures |set a: nat | w.wired <= a < hi :: w.asms[a].key| <= hi - w.wired
    decreases hi
  {
    var keys := set a: nat | w.wired <= a < hi :: w.asms[a].key;
    if w.wired < hi {
      PrivateKeysCount(w, hi - 1);
      var fewer := set a: nat | w.wired <= a < hi - 1 :: w.asms[a].key;
      assert keys == fewer + {w.asms[hi - 1].key};
    } else {
      assert keys == {};
    }
  }

  lemma PrivateCount(w: Work)
    requires w.wired <= |w.asms|
    ensures |PrivateKeys(w)| <= |w.asms| - w.wired
  {
    PrivateKeysCount(w, |w.asms|);
  }

  lemma UnionSize<T>(a: set<T>, b: set<T>)
    ensures |a + b| <= |a| + |b|
  {
    assert a + b == a + (b - a);
    assert b == (b * a) + (b - a);
  }

  lemma Fewer<T>(a: set<T>, b: set<T>)
    requires a <= b
    ensures |a| <= |b|
  {
    assert b == a + (b - a);
  }

  /** A speculative batch of n entries is being staged. */
  ghost predicate Speculating(s: Sys, n: nat) {
    && s.forward.Stage? && s.work.wired <= |s.work.asms| && |s.inFlight| < MAX_PREFETCH_IN_FLIGHT
    && |s.work.asms| - s.work.wired + |s.forward.todo| <= n
  }

  lemma MarkSpeculated(s: Sys, runs: seq<Run>, n: nat)
    requires Speculating(s, n)
    ensures |DoMark(s, runs).inFlight| < MAX_PREFETCH_IN_FLIGHT + n
  {
    hide PrivateKeys;
    PrivateCount(s.work);
    UnionSize(s.inFlight, PrivateKeys(s.work));
  }

  /** Only marking a batch adds keys to those in flight. */
  lemma InFlightShrinks(ix: Index, disk: Disk, s: Sys, step: Step)
    requires Enabled(ix, disk, s, step) && !step.MarkInFlight?
    ensures |Do(ix, disk, s, step).inFlight| <= |s.inFlight|
  {
    hide GoodIndex, Valid, SyncLoad, CopyTo, Insert, Pin, Boost, Parts, TotalSize, Loadable, Over, Resized, RunReadable,
         CopySafe, Resume, DoCreate;
    assert Do(ix, disk, s, step).inFlight <= s.inFlight;
    Fewer(Do(ix, disk, s, step).inFlight, s.inFlight);
  }

  lemma StageSpeculating(ix: Index, s: Sys, n: nat)
    requires Speculating(s, n) && s.forward.todo != []
    ensures Speculating(DoStage(ix, s), n)
  {
    hide NewAssembly, Parts, TotalSize;
  }

  lemma ScatterSpeculating(s: Sys, j: nat, act: Act, n: nat)
    requires Speculating(s, n) && Doing(s.work, j, act) && Valid(s.lru)
    requires |DoScatter(s, j, act).inFlight| <= |s.inFlight|
    ensures Speculating(DoScatter(s, j, act), n)
  {
    hide Valid, Insert, CopySafe;
  }

  lemma OtherSpeculating(ix: Index, disk: Disk, s: Sys, step: Step, n: nat)
    requires Speculating(s, n) && Enabled(ix, disk, s, step)
    requires !step.MarkInFlight? && !step.StageNext? && !step.Scattering?
    ensures Speculating(Do(ix, disk, s, step), n)
  {
    hide GoodIndex, Valid, SyncLoad, CopyTo, Insert, Pin, Boost, Parts, TotalSize, Loadable, Over, Resized, RunReadable,
         DoGet, DoLoad, DoReturn, DoSubmit, DoStartGet;
  }

  lemma StepSpeculating(ix: Index, disk: Disk, s: Sys, step: Step, n: nat)
    requires Speculating(s, n) && Enabled(ix, disk, s, step) && !step.MarkInFlight?
    ensures Speculating(Do(ix, disk, s, step), n)
  {
    hide GoodIndex, Valid, Speculating, DoStage, DoScatter;
    match step {
      case StageNext => StageSpeculating(ix, s, n);
      case Scattering(j, act) =>
        InFlightShrinks(ix, disk, s, step);
        ScatterSpeculating(s, j, act, n);
      case _ => OtherSpeculating(ix, disk, s, step, n);
    }
  }

  /** How many batches are marked in flight. */
  function Marks(steps: seq<Step>): nat {
    if steps == [] then 0 else (if steps[0].MarkInFlight? then 1 else 0) + Marks(steps[1..])
  }

  lemma {:induction false} RunShrinks(ix: Index, disk: Disk, s: Sys, steps: seq<Step>, t: Sys)
    requires Leads(ix, disk, s, steps, t) && Marks(steps) == 0
    ensures |t.inFlight| <= |s.inFlight|
    decreases |steps|
  {
    hide Enabled, Do;
    if steps != [] {
      InFlightShrinks(ix, disk, s, steps[0]);
      RunShrinks(ix, disk, Do(ix, disk, s, steps[0]), steps[1..], t);
    }
  }

  lemma {:induction false} RunSpeculating(ix: Index, disk: Disk, s: Sys, steps: seq<Step>, t: Sys, n: nat)
    requires Speculating(s, n) && Leads(ix, disk, s, steps, t) && Marks(steps) <= 1
    ensures |t.inFlight| < MAX_PREFETCH_IN_FLIGHT + n
    decreases |steps|
  {
    hide Enabled, Do, DoMark;
    if steps != [] {
      var next := Do(ix, disk, s, steps[0]);
      if steps[0].MarkInFlight? {
        assert next == DoMark(s, steps[0].runs) by { MarkIs(ix, disk, s, steps[0].runs); }
        MarkSpeculated(s, steps[0].runs, n);
        RunShrinks(ix, disk, next, steps[1..], t);
      } else {
        StepSpeculating(ix, disk, s, steps[0], n);
        RunSpeculating(ix, disk, next, steps[1..], t, n);
      }
    }
  }

  lemma MarkIs(ix: Index, disk: Disk, s: Sys, runs: seq<Run>)
    requires Enabled(ix, disk, s, MarkInFlight(runs))
    ensures s.forward.Stage? && Do(ix, disk, s, MarkInFlight(runs)) == DoMark(s, runs)
  {
  }

  /** The cap is soft by less than one batch, in every run, whatever demand
      staging and getters came before: from the start of a speculative batch that
      is not turned away until the batch after it is marked, fewer keys are in
      flight than the cap and the batch together. */
  lemma SpeculativeBatchIsBounded(ix: Index, disk: Disk, s: Sys, before: seq<Step>, t: Sys, batch: seq<(int, int)>,
                                  after: seq<Step>, u: Sys)
    requires GoodIndex(ix, disk) && Initial(s) && Leads(ix, disk, s, before, t)
    requires Enabled(ix, disk, t, StartPrefetch(batch, false)) && |t.inFlight| < MAX_PREFETCH_IN_FLIGHT
    requires Leads(ix, disk, Do(ix, disk, t, StartPrefetch(batch, false)), after, u) && Marks(after) <= 1
    ensures |u.inFlight| < MAX_PREFETCH_IN_FLIGHT + |batch|
  {
    hide GoodIndex, Leads, Initial, Safe, PendingOk, QueueOk, SubmitOk, LockOk, InFlightOk;
    InitialSafe(ix, disk, s);
    InitialBooks(s);
    RunBooks(ix, disk, s, before, t);
    RunSpeculating(ix, disk, Do(ix, disk, t, StartPrefetch(batch, false)), after, u, |batch|);
  }
}
