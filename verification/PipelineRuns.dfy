/** Whole runs of the pipeline: the bookkeeping holds throughout and callbacks run once. */
module PipelineRuns {
  import opened Bytes
  import opened LruModel
  import opened ExpertDisk
  import opened Runs
  import opened Assembling
  import opened AssemblySteps
  import opened WiringSteps
  import opened Pipeline
  import opened PipelineSafety
  import opened PipelineBooks

  // ---------------------------------------------------------------- bookkeeping over steps and runs

  lemma ForwardStepBooks(ix: Index, disk: Disk, s: Sys, step: Step)
    requires GoodIndex(ix, disk) && Safe(ix, disk, s) && Books(s) && Enabled(ix, disk, s, step)
    requires step.StageNext? || step.MarkInFlight? || step.SubmitNext?
    ensures Books(Do(ix, disk, s, step))
  {
    assert s.work.wired <= |s.work.asms|;
    hide GoodIndex, Books, Safe, DoStage, DoMark, DoSubmit;
    match step {
      case StageNext => StageBooks(ix, s);
      case MarkInFlight(runs) =>
        assert Inv(ix, disk, s.work) by { SafeInv(ix, disk, s); }
        MarkBooks(ix, disk, s, runs);
      case SubmitNext => SubmitBooks(s);
    }
  }

  lemma SafeInv(ix: Index, disk: Disk, s: Sys)
    requires GoodIndex(ix, disk) && Safe(ix, disk, s)
    ensures Inv(ix, disk, s.work) && Valid(s.lru)
  {
    hide GoodIndex, Inv, Valid, Exact;
  }

  lemma ReaderStepBooks(ix: Index, disk: Disk, s: Sys, step: Step)
    requires Books(s) && Enabled(ix, disk, s, step)
    requires step.Take? || step.FinishRead? || step.Scattering? || step.Complete?
    ensures Books(Do(ix, disk, s, step))
  {
    hide GoodIndex, Books, Valid, DoScatter, DoRead, DoTake, DoComplete;
    match step {
      case Take => TakeBooks(s);
      case FinishRead(j, ok) => ReadBooks(disk, s, j, ok);
      case Complete(j) => CompleteBooks(s, j);
      case Scattering(j, act) =>
        if act.Move? {
          MoveBooks(s, j);
        } else if act.Erase? {
          EraseBooks(s, j);
        } else {
          ScatterBooks(s, j, act);
        }
    }
  }

  lemma OtherStepBooks(ix: Index, disk: Disk, s: Sys, step: Step)
    requires Books(s) && Enabled(ix, disk, s, step)
    requires !(step.Take? || step.FinishRead? || step.Scattering? || step.Complete?)
    requires !(step.StageNext? || step.MarkInFlight? || step.SubmitNext?)
    ensures Books(Do(ix, disk, s, step))
  {
    hide GoodIndex, Books, Valid, SyncLoad, CopyTo, Insert, Pin, Boost, Parts, TotalSize, Loadable, Over, Resized;
    OtherBooks(s, Do(ix, disk, s, step));
  }

  lemma StepBooks(ix: Index, disk: Disk, s: Sys, step: Step)
    requires GoodIndex(ix, disk) && Safe(ix, disk, s) && Books(s) && Enabled(ix, disk, s, step)
    ensures Books(Do(ix, disk, s, step))
  {
    hide GoodIndex, Safe, Books, Enabled, Do;
    if step.Take? || step.FinishRead? || step.Scattering? || step.Complete? {
      ReaderStepBooks(ix, disk, s, step);
    } else if step.StageNext? || step.MarkInFlight? || step.SubmitNext? {
      ForwardStepBooks(ix, disk, s, step);
    } else {
      OtherStepBooks(ix, disk, s, step);
    }
  }

  lemma {:induction false} RunBooks(ix: Index, disk: Disk, s: Sys, steps: seq<Step>, t: Sys)
    requires GoodIndex(ix, disk) && Safe(ix, disk, s) && Books(s) && Leads(ix, disk, s, steps, t)
    ensures Safe(ix, disk, t) && Books(t)
    decreases |steps|
  {
    hide GoodIndex, Safe, Books, Enabled, Do;
    if steps != [] {
      StepSafe(ix, disk, s, steps[0]);
      StepBooks(ix, disk, s, steps[0]);
      RunBooks(ix, disk, Do(ix, disk, s, steps[0]), steps[1..], t);
    }
  }

  lemma InitialBooks(s: Sys)
    requires Initial(s)
    ensures Books(s)
  {
    assert OutstandingJobs(s.work.jobs) == {};
  }

  /** In every state of every run: pending counts the submitted reads whose
      callback has not returned, the queue holds exactly the reads waiting for a
      thread, at most one callback is in the critical section, and every key in
      flight has an unfinished assembly. */
  lemma BooksHold(ix: Index, disk: Disk, s: Sys, steps: seq<Step>, t: Sys)
    requires GoodIndex(ix, disk) && Initial(s) && Leads(ix, disk, s, steps, t)
    ensures t.pending == |OutstandingJobs(t.work.jobs)|
    ensures Distinct(t.queue) && forall j: nat :: j in t.queue <==> IsQueued(t.work.jobs, j)
    ensures forall j: nat, k: nat :: Erasing(t.work.jobs, j) && Erasing(t.work.jobs, k) ==> j == k
    ensures forall k :: k in t.inFlight ==> LiveKey(t.work, k)
  {
    hide GoodIndex, Leads, Initial, Safe, OutstandingJobs, LiveKey, IsQueued, SubmitOk, WiredOk, Erasing, Distinct;
    InitialSafe(ix, disk, s);
    InitialBooks(s);
    RunBooks(ix, disk, s, steps, t);
  }

  // ---------------------------------------------------------------- callbacks run once

  /** The step runs the callback of job j: a finished read, or a refused submission. */
  ghost predicate CallsBack(s: Sys, step: Step, j: nat) {
    || (step.FinishRead? && step.job == j)
    || (step.SubmitNext? && s.forward.Submit? && s.forward.job == j && j < |s.work.jobs|
      && s.work.jobs[j].phase.Built? && !s.running)
  }

  ghost function Callbacks(ix: Index, disk: Disk, s: Sys, steps: seq<Step>, t: Sys, j: nat): nat
    requires Leads(ix, disk, s, steps, t)
    decreases |steps|
  {
    if steps == [] then 0
    else (if CallsBack(s, steps[0], j) then 1 else 0) + Callbacks(ix, disk, Do(ix, disk, s, steps[0]), steps[1..], t, j)
  }

  /** The callback of job j has been called. */
  predicate CalledBack(jobs: seq<Job>, j: nat) {
    j < |jobs| && (jobs[j].phase.Scatter? || jobs[j].phase.Returned? || jobs[j].phase.Done?)
  }

  function Once(b: bool): nat {
    if b then 1 else 0
  }

  ghost predicate CallbackCounted(s: Sys, step: Step, jobs: seq<Job>, j: nat) {
    Once(CalledBack(s.work.jobs, j)) + Once(CallsBack(s, step, j)) == Once(CalledBack(jobs, j))
  }

  lemma SubmitCallback(s: Sys, j: nat)
    requires s.forward.Submit? && s.forward.job < |s.work.jobs|
    requires s.work.jobs[s.forward.job].phase.Built? || s.work.jobs[s.forward.job].phase.Counted?
    ensures CallbackCounted(s, SubmitNext, DoSubmit(s).work.jobs, j)
  {
    hide Resume;
  }

  lemma MarkCallback(s: Sys, runs: seq<Run>, j: nat)
    requires s.forward.Stage?
    ensures CallbackCounted(s, MarkInFlight(runs), DoMark(s, runs).work.jobs, j)
  {
    hide Resume, PrivateKeys;
  }

  lemma StageCallback(ix: Index, s: Sys, j: nat)
    requires s.forward.Stage? && s.forward.todo != []
    ensures CallbackCounted(s, StageNext, DoStage(ix, s).work.jobs, j)
  {
    hide Parts, TotalSize, NewAssembly;
  }

  lemma ScatterCallback(s: Sys, i: nat, act: Act, j: nat)
    requires Doing(s.work, i, act) && Valid(s.lru)
    ensures CallbackCounted(s, Scattering(i, act), DoScatter(s, i, act).work.jobs, j)
  {
    hide Valid, Insert, CopySafe;
    var jobs := DoScatter(s, i, act).work.jobs;
    assert CalledBack(s.work.jobs, i) && CalledBack(jobs, i);
    assert |jobs| == |s.work.jobs| && (j != i && j < |jobs| ==> jobs[j] == s.work.jobs[j]);
  }

  lemma ReaderCallback(ix: Index, disk: Disk, s: Sys, step: Step, j: nat)
    requires Enabled(ix, disk, s, step) && (step.Take? || step.FinishRead? || step.Complete?)
    ensures CallbackCounted(s, step, Do(ix, disk, s, step).work.jobs, j)
  {
    hide RunReadable;
  }

  lemma OtherCallback(ix: Index, disk: Disk, s: Sys, step: Step, j: nat)
    requires Enabled(ix, disk, s, step)
    requires !(step.Take? || step.FinishRead? || step.Scattering? || step.Complete?)
    requires !(step.StageNext? || step.MarkInFlight? || step.SubmitNext?)
    ensures CallbackCounted(s, step, Do(ix, disk, s, step).work.jobs, j)
  {
    hide GoodIndex, Valid, SyncLoad, CopyTo, Insert, Pin, Boost, Parts, TotalSize, Loadable, Over, Resized;
    assert Do(ix, disk, s, step).work == s.work;
  }

  lemma StepCallback(ix: Index, disk: Disk, s: Sys, step: Step, j: nat)
    requires Enabled(ix, disk, s, step)
    ensures CallbackCounted(s, step, Do(ix, disk, s, step).work.jobs, j)
  {
    hide GoodIndex, Valid, CallbackCounted, DoSubmit, DoMark, DoStage, DoScatter;
    match step {
      case SubmitNext => SubmitCallback(s, j);
      case MarkInFlight(runs) => MarkCallback(s, runs, j);
      case StageNext => StageCallback(ix, s, j);
      case Scattering(i, act) => ScatterCallback(s, i, act, j);
      case Take => ReaderCallback(ix, disk, s, step, j);
      case FinishRead(_, _) => ReaderCallback(ix, disk, s, step, j);
      case Complete(_) => ReaderCallback(ix, disk, s, step, j);
      case _ => OtherCallback(ix, disk, s, step, j);
    }
  }

  /** Over a whole run a read's callback runs at most once; and pending drops only
      for a read whose callback has run. */
  lemma {:induction false} CallbackOnce(ix: Index, disk: Disk, s: Sys, steps: seq<Step>, t: Sys, j: nat)
    requires Leads(ix, disk, s, steps, t)
    ensures Callbacks(ix, disk, s, steps, t, j) ==
            Once(CalledBack(t.work.jobs, j)) - Once(CalledBack(s.work.jobs, j))
    decreases |steps|
  {
    hide Enabled, Do, CallsBack, CalledBack;
    if steps != [] {
      StepCallback(ix, disk, s, steps[0], j);
      CallbackOnce(ix, disk, Do(ix, disk, s, steps[0]), steps[1..], t, j);
    }
  }

  /** A read's callback has run, and exactly once, when pending is about to drop for it. */
  lemma CallbackBeforeCountdown(ix: Index, disk: Disk, s: Sys, steps: seq<Step>, t: Sys, j: nat)
    requires Initial(s) && Leads(ix, disk, s, steps, t) && Enabled(ix, disk, t, Complete(j))
    ensures Callbacks(ix, disk, s, steps, t, j) == 1
  {
    hide Leads, Callbacks;
    CallbackOnce(ix, disk, s, steps, t, j);
  }
}
