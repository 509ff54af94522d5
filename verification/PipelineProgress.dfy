/** Progress: the pipeline never locks up, and left to itself it settles. */
module PipelineProgress {
  import opened LruModel
  import opened ExpertDisk
  import opened Runs
  import opened Assembling
  import opened AssemblySteps
  import opened Wiring
  import opened WiringSteps
  import opened Pipeline
  import opened PipelineSafety
  import opened PipelineBooks
  import opened PipelineRuns

  // ---------------------------------------------------------------- some thread can go on

  /** One run for each projection. */
  function SingleRuns(ios: seq<Projection>): seq<Run> {
    if ios == [] then []
    else
      var io := ios[|ios| - 1];
      var run := Run(io.shard, io.offset, io.offset + io.size, [Slice(io.assem, io.expertOffset, io.size, 0)]);
      SingleRuns(ios[..|ios| - 1]) + [run]
  }

  lemma {:induction false} SingleRunsRegroup(ios: seq<Projection>)
    ensures Flat(SingleRuns(ios)) == ios && Regrouped(ios, SingleRuns(ios))
  {
    hide Tight, Flat, PlacedAll;
    if ios == [] {
      FlatNothing();
    } else {
      var front, io := ios[..|ios| - 1], ios[|ios| - 1];
      var run := Run(io.shard, io.offset, io.offset + io.size, [Slice(io.assem, io.expertOffset, io.size, 0)]);
      SingleRunsRegroup(front);
      OpenRun(io);
      FlatConcat(SingleRuns(front), [run]);
      FlatOne(run);
      assert ios == front + [io];
    }
  }

  /** A thread of the engine itself has something to do: the forward thread in
      the middle of a call, or a reader with a read to take, make, scatter or
      count off. */
  ghost predicate Busy(s: Sys) {
    !s.forward.Idle? || exists j: nat :: j < |s.work.jobs| && Outstanding(s.work.jobs[j].phase)
  }

  /** A step of the engine's own threads, not a call from outside. */
  predicate Internal(step: Step) {
    !step.StartPrefetch? && !step.StartGet? && !step.PinKey? && !step.BoostKey? && !step.Stop?
  }

  /** The getter polls the cache and its expert is not there yet. */
  predicate FutilePoll(s: Sys, step: Step) {
    step.GetNext? && s.forward.Get? && s.forward.at.Poll? && s.forward.g.key !in s.lru.table
  }

  /** The step is a read that fails. */
  predicate FailedRead(step: Step) {
    step.FinishRead? && !step.ok
  }

  /** A callback in the critical section can always leave it. */
  lemma EraseEnabled(ix: Index, disk: Disk, s: Sys) returns (step: Step)
    requires GoodIndex(ix, disk) && Safe(ix, disk, s) && Books(s) && s.lock.Some?
    ensures Enabled(ix, disk, s, step) && Internal(step) && !FutilePoll(s, step) && !FailedRead(step)
  {
    SafeInv(ix, disk, s);
    var j := s.lock.value;
    assert Erasing(s.work.jobs, j);
    assert PhaseOk(disk, s.work.jobs[j]);
    assert IsSlice(s.work.jobs, j, s.work.jobs[j].phase.slice);
    step := Scattering(j, Erase);
  }

  /** An outstanding read can always go on when nobody holds the mutex. */
  lemma ReaderEnabled(ix: Index, disk: Disk, s: Sys, j: nat) returns (step: Step)
    requires GoodIndex(ix, disk) && Safe(ix, disk, s) && Books(s) && s.lock.None?
    requires j < |s.work.jobs| && Outstanding(s.work.jobs[j].phase)
    ensures Enabled(ix, disk, s, step) && Internal(step) && !FutilePoll(s, step) && !FailedRead(step)
  {
    SafeInv(ix, disk, s);
    match s.work.jobs[j].phase {
      case Counted => step := SubmitNext;
      case Queued =>
        assert IsQueued(s.work.jobs, j) && IsQueued(s.work.jobs, s.queue[0]);
        step := Take;
      case Reading => step := FinishRead(j, true);
      case Returned(_) => step := Complete(j);
      case Scatter(_, i, act) =>
        assert PhaseOk(disk, s.work.jobs[j]);
        assert IsSlice(s.work.jobs, j, i);
        assert act.Erase? ==> Erasing(s.work.jobs, j);
        step := Scattering(j, act);
    }
  }

  lemma ForwardEnabled(ix: Index, disk: Disk, s: Sys) returns (step: Step)
    requires GoodIndex(ix, disk) && Safe(ix, disk, s) && Books(s) && s.lock.None? && !s.forward.Idle?
    ensures Enabled(ix, disk, s, step) && Internal(step) && !FutilePoll(s, step) && !FailedRead(step)
  {
    SafeInv(ix, disk, s);
    assert s.work.wired <= |s.work.asms|;
    hide GoodIndex, Inv, CacheOk, HeldOk, AnswersOk, Valid, PendingOk, QueueOk, LockOk, InFlightOk, Loadable, PointOk,
         Parts, TotalSize, BatchIos;
    match s.forward {
      case Stage(todo, _, _) =>
        var ios := BatchIos(ix, s.work.asms, s.work.wired, |s.work.asms|);
        SingleRunsRegroup(ios);
        step := if todo == [] then MarkInFlight(SingleRuns(ios)) else StageNext;
      case Submit(job, _) =>
        assert Unsubmitted(s.work.jobs, job);
        step := SubmitNext;
      case Get(g, at) =>
        step := if at.Load? then LoadSync({}) else if at.Poll? then TimeOut
                else if !at.Served? then GetNext else if at.pin then PinServed else Return;
    }
  }

  /** No state is stuck: while a call or a read is under way, some thread of the
      engine can take a step other than polling in vain or a failing read. */
  lemma NotStuck(ix: Index, disk: Disk, s: Sys) returns (step: Step)
    requires GoodIndex(ix, disk) && Safe(ix, disk, s) && Books(s) && Busy(s)
    ensures Enabled(ix, disk, s, step) && Internal(step) && !FutilePoll(s, step) && !FailedRead(step)
  {
    hide GoodIndex, Safe, Books, Enabled;
    if s.lock.Some? {
      step := EraseEnabled(ix, disk, s);
    } else if !s.forward.Idle? {
      step := ForwardEnabled(ix, disk, s);
    } else {
      var j: nat :| j < |s.work.jobs| && Outstanding(s.work.jobs[j].phase);
      step := ReaderEnabled(ix, disk, s, j);
    }
  }

  // ---------------------------------------------------------------- a measure that every step lowers

  /** How far the forward thread is from being idle. */
  function ForwardRank(f: Forward): nat {
    match f
    case Idle => 0
    case Stage(_, _, after) => if after.Back? then 2 else 9
    case Submit(_, after) => if after.Back? then 1 else 8
    case Get(_, at) =>
      match at
      case Try => 12
      case ProbeLru(first) => if first then 11 else 7
      case ProbeInFlight(first) => if first then 10 else 6
      case Poll => 5
      case Load => 4
      case Keep(_) => 3
      case Served(pin) => if pin then 2 else 1
  }

  function CheckRank(check: Check): nat {
    match check case InLru => 2 case InFlight => 1 case InLruAgain => 0
  }

  /** What is left of the batch being staged or submitted. */
  function BatchLeft(f: Forward, jobs: seq<Job>): nat {
    match f
    case Stage(todo, check, _) => 3 * |todo| + CheckRank(check)
    case Submit(j, _) =>
      if j < |jobs| then 2 * (|jobs| - j) - (if jobs[j].phase.Counted? then 1 else 0) else 0
    case _ => 0
  }

  function ActRank(act: Act): nat {
    match act case Copy => 0 case Dec => 1 case Exchange => 2 case Move => 3 case Erase => 4
  }

  /** The steps a reader thread has left for a job. */
  function JobLeft(job: Job): nat {
    var n := |job.run.slices|;
    match job.phase
    case Queued => 5 * n + 4
    case Reading => 5 * n + 3
    case Scatter(_, i, act) => if i < n then 5 * (n - i) + 2 - ActRank(act) else 2
    case Returned(_) => 1
    case _ => 0
  }

  function ReadsLeft(jobs: seq<Job>): nat {
    if jobs == [] then 0 else ReadsLeft(jobs[..|jobs| - 1]) + JobLeft(jobs[|jobs| - 1])
  }

  lemma {:induction false} ReadsLeftUpdated(jobs: seq<Job>, j: nat, job: Job)
    requires j < |jobs|
    ensures ReadsLeft(jobs[j := job]) == ReadsLeft(jobs) - JobLeft(jobs[j]) + JobLeft(job)
  {
    hide JobLeft;
    var n := |jobs| - 1;
    if j < n {
      ReadsLeftUpdated(jobs[..n], j, job);
      assert jobs[j := job][..n] == jobs[..n][j := job];
    } else {
      assert jobs[j := job][..n] == jobs[..n];
    }
  }

  /** s is nearer to rest than r: first by the forward thread, then by its batch,
      then by the reads under way. */
  ghost predicate Nearer(s: Sys, r: Sys) {
    || ForwardRank(s.forward) < ForwardRank(r.forward)
    || (ForwardRank(s.forward) == ForwardRank(r.forward)
        && (|| BatchLeft(s.forward, s.work.jobs) < BatchLeft(r.forward, r.work.jobs)
            || (BatchLeft(s.forward, s.work.jobs) == BatchLeft(r.forward, r.work.jobs)
                && ReadsLeft(s.work.jobs) < ReadsLeft(r.work.jobs))))
  }

  /** A reader thread's step on job j. */
  lemma ReaderNearer(s: Sys, t: Sys, j: nat, ph: Phase)
    requires SubmitOk(s.work.jobs, s.forward) && j < |s.work.jobs| && !Unsubmitted(s.work.jobs, j)
    requires t.forward == s.forward && t.work.jobs == SetPhase(s.work, j, ph).jobs
    requires JobLeft(s.work.jobs[j].(phase := ph)) < JobLeft(s.work.jobs[j])
    ensures Nearer(t, s)
  {
    hide JobLeft, ReadsLeft;
    ReadsLeftUpdated(s.work.jobs, j, s.work.jobs[j].(phase := ph));
    assert s.forward.Submit? ==> Unsubmitted(s.work.jobs, s.forward.job);
  }

  lemma ScatterNearer(ix: Index, disk: Disk, s: Sys, j: nat, act: Act)
    requires SubmitOk(s.work.jobs, s.forward) && Doing(s.work, j, act) && Valid(s.lru)
    ensures Nearer(DoScatter(s, j, act), s)
  {
    hide Valid, Insert, CopySafe, Nearer, SubmitOk;
    var t := DoScatter(s, j, act);
    ReaderNearer(s, t, j, t.work.jobs[j].phase);
  }

  lemma ReaderStepNearer(ix: Index, disk: Disk, s: Sys, step: Step)
    requires SubmitOk(s.work.jobs, s.forward) && Enabled(ix, disk, s, step)
    requires step.Take? || step.FinishRead? || step.Scattering? || step.Complete?
    ensures Nearer(Do(ix, disk, s, step), s)
  {
    hide Nearer, SubmitOk, Valid, DoScatter;
    var t := Do(ix, disk, s, step);
    match step {
      case Take => ReaderNearer(s, t, s.queue[0], Reading);
      case FinishRead(j, _) => ReaderNearer(s, t, j, t.work.jobs[j].phase);
      case Scattering(j, act) => ScatterNearer(ix, disk, s, j, act);
      case Complete(j) => ReaderNearer(s, t, j, t.work.jobs[j].phase);
    }
  }

  lemma SubmitNearer(s: Sys)
    requires s.forward.Submit? && s.forward.job < |s.work.jobs|
    requires s.work.jobs[s.forward.job].phase.Built? || s.work.jobs[s.forward.job].phase.Counted?
    ensures Nearer(DoSubmit(s), s)
  {
    hide ReadsLeft;
  }

  lemma StageNearer(ix: Index, s: Sys)
    requires s.forward.Stage? && s.forward.todo != []
    ensures Nearer(DoStage(ix, s), s)
  {
    hide ReadsLeft, Parts, TotalSize, DoCreate;
  }

  lemma MarkNearer(s: Sys, runs: seq<Run>)
    requires s.forward.Stage?
    ensures Nearer(DoMark(s, runs), s)
  {
    hide ReadsLeft, PrivateKeys, DoWire, BatchLeft;
  }

  /** Where a copy out of the cache leads. */
  lemma CopyLeads(ix: Index, disk: Disk, s: Sys, g: Getter, miss: Point)
    requires GoodIndex(ix, disk) && CacheOk(ix, disk, s.lru) && Valid(s.lru)
    requires g.scratch < |s.scratch| && TotalSize(Parts(ix, g.key)) <= |s.scratch[g.scratch]|
    ensures DoCopyTo(s, g, miss).forward == Get(g, if g.key in s.lru.table then Served(g.scratch == 0) else miss)
    ensures g.key !in s.lru.table ==> DoCopyTo(s, g, miss).lru == s.lru && DoCopyTo(s, g, miss).scratch == s.scratch
  {
    CopyToOk(ix, disk, s.lru, g.key, |s.scratch[g.scratch]|);
    hide GoodIndex, CacheOk, Valid, KeyBytes, Over, Parts, TotalSize, Promote;
  }

  /** The getter's other points. */
  lemma PointNearer(s: Sys)
    requires Valid(s.lru) && s.forward.Get? && s.forward.g.scratch < |s.scratch|
    requires s.forward.at.ProbeLru? || s.forward.at.ProbeInFlight? || s.forward.at.Keep?
    ensures ForwardRank(DoGet(s).forward) < ForwardRank(s.forward)
  {
    hide Valid, Insert, DoCopyTo;
  }

  /** What the invariant says about a getter under way. */
  lemma GetterFits(ix: Index, disk: Disk, s: Sys)
    requires GoodIndex(ix, disk) && Safe(ix, disk, s) && s.forward.Get? && s.forward.g.scratch < |s.scratch|
    ensures CacheOk(ix, disk, s.lru) && Valid(s.lru)
    ensures TotalSize(Parts(ix, s.forward.g.key)) <= |s.scratch[s.forward.g.scratch]|
  {
    assert GetterOk(ix, s.scratch, s.held, s.forward.g);
    hide GoodIndex, Inv, CacheOk, HeldOk, AnswersOk, Valid, KeyBytes, PointOk, Loadable, Parts, TotalSize;
  }

  lemma CopyNearer(ix: Index, disk: Disk, s: Sys, miss: Point)
    requires GoodIndex(ix, disk) && Safe(ix, disk, s) && s.forward.Get? && (s.forward.at.Try? || s.forward.at.Poll?)
      && Valid(s.lru)
    requires s.forward.g.scratch < |s.scratch|
    requires (s.forward.at.Try? && miss == ProbeLru(true)) || s.forward.g.key in s.lru.table
    ensures ForwardRank(DoCopyTo(s, s.forward.g, miss).forward) < ForwardRank(s.forward)
  {
    hide GoodIndex, Safe, CacheOk, Valid, DoCopyTo, Parts, TotalSize;
    GetterFits(ix, disk, s);
    CopyLeads(ix, disk, s, s.forward.g, miss);
  }

  lemma GetNearer(ix: Index, disk: Disk, s: Sys)
    requires GoodIndex(ix, disk) && Safe(ix, disk, s) && Enabled(ix, disk, s, GetNext) && !FutilePoll(s, GetNext)
    ensures Nearer(DoGet(s), s)
  {
    hide GoodIndex, Safe, Valid, Insert, BatchLeft, ReadsLeft, ForwardRank, DoCopyTo;
    match s.forward.at {
      case Try => CopyNearer(ix, disk, s, ProbeLru(true));
      case Poll => CopyNearer(ix, disk, s, Poll);
      case _ => PointNearer(s);
    }
  }

  /** A poll in vain changes nothing, so schedules may be looked at without them. */
  lemma FutilePollIsIdle(ix: Index, disk: Disk, s: Sys)
    requires GoodIndex(ix, disk) && Safe(ix, disk, s) && Enabled(ix, disk, s, GetNext) && FutilePoll(s, GetNext)
    ensures Do(ix, disk, s, GetNext) == s
  {
    hide GoodIndex, Safe, CacheOk, Parts, TotalSize, Valid;
    GetterFits(ix, disk, s);
    CopyLeads(ix, disk, s, s.forward.g, Poll);
  }

  lemma OtherNearer(ix: Index, disk: Disk, s: Sys, step: Step)
    requires Enabled(ix, disk, s, step) && (step.TimeOut? || step.LoadSync? || step.PinServed? || step.Return?)
    ensures Nearer(Do(ix, disk, s, step), s)
  {
    hide GoodIndex, Pin, SyncLoad, BatchLeft, ReadsLeft, Over, Parts, TotalSize;
  }

  /** Every step of the engine's own threads, save polling in vain, brings it
      nearer to rest, whichever thread takes it. */
  lemma StepNearer(ix: Index, disk: Disk, s: Sys, step: Step)
    requires GoodIndex(ix, disk) && Safe(ix, disk, s) && Books(s)
    requires Enabled(ix, disk, s, step) && Internal(step) && !FutilePoll(s, step)
    ensures Nearer(Do(ix, disk, s, step), s)
  {
    assert SubmitOk(s.work.jobs, s.forward);
    hide GoodIndex, Safe, Books, Nearer, SubmitOk, Valid, DoStage, DoMark, DoSubmit, DoGet;
    match step {
      case StageNext => StageNearer(ix, s);
      case MarkInFlight(runs) => MarkNearer(s, runs);
      case SubmitNext => SubmitNearer(s);
      case GetNext => GetNearer(ix, disk, s);
      case Take => ReaderStepNearer(ix, disk, s, step);
      case FinishRead(_, _) => ReaderStepNearer(ix, disk, s, step);
      case Scattering(_, _) => ReaderStepNearer(ix, disk, s, step);
      case Complete(_) => ReaderStepNearer(ix, disk, s, step);
      case _ => OtherNearer(ix, disk, s, step);
    }
  }

  // ---------------------------------------------------------------- the engine settles

  /** From every reachable state finitely many steps of the engine's own threads,
      none of them polling in vain and none a failing read, lead to rest: the
      forward thread idle and no read outstanding. */
  lemma Settles(ix: Index, disk: Disk, s: Sys, steps: seq<Step>, t: Sys) returns (more: seq<Step>, u: Sys)
    requires GoodIndex(ix, disk) && Initial(s) && Leads(ix, disk, s, steps, t)
    ensures Leads(ix, disk, t, more, u) && Working(ix, disk, t, more) && !Busy(u)
  {
    hide GoodIndex, Leads, Initial, Safe, Books, Working, Busy;
    InitialSafe(ix, disk, s);
    InitialBooks(s);
    RunBooks(ix, disk, s, steps, t);
    more, u := SettlesFrom(ix, disk, t);
  }

  /** The steps are the engine's own, none polls in vain and no read fails. */
  ghost predicate Working(ix: Index, disk: Disk, s: Sys, steps: seq<Step>)
    decreases |steps|
  {
    steps != [] ==>
      && Internal(steps[0]) && !FutilePoll(s, steps[0]) && !FailedRead(steps[0]) && Enabled(ix, disk, s, steps[0])
      && Working(ix, disk, Do(ix, disk, s, steps[0]), steps[1..])
  }

  lemma SettlesFrom(ix: Index, disk: Disk, s: Sys) returns (more: seq<Step>, u: Sys)
    requires GoodIndex(ix, disk) && Safe(ix, disk, s) && Books(s)
    ensures Leads(ix, disk, s, more, u) && Working(ix, disk, s, more) && !Busy(u)
    decreases ForwardRank(s.forward), BatchLeft(s.forward, s.work.jobs), ReadsLeft(s.work.jobs)
  {
    hide GoodIndex, Safe, Books, Enabled, Do, FutilePoll, FailedRead, Internal, Busy, ForwardRank, BatchLeft, ReadsLeft;
    if Busy(s) {
      var step := NotStuck(ix, disk, s);
      StepSafe(ix, disk, s, step);
      StepBooks(ix, disk, s, step);
      StepNearer(ix, disk, s, step);
      var rest;
      rest, u := SettlesFrom(ix, disk, Do(ix, disk, s, step));
      more := [step] + rest;
      assert more[0] == step && more[1..] == rest;
    } else {
      more, u := [], s;
    }
  }

  /** An infinite schedule of the engine's own threads in which no poll is in vain. */
  ghost predicate Endless(ix: Index, disk: Disk, states: nat -> Sys, steps: nat -> Step) {
    forall n: nat :: Follows(ix, disk, states, steps, n)
  }

  ghost predicate Follows(ix: Index, disk: Disk, states: nat -> Sys, steps: nat -> Step, n: nat) {
    && Enabled(ix, disk, states(n), steps(n)) && Internal(steps(n)) && !FutilePoll(states(n), steps(n))
    && states(n + 1) == Do(ix, disk, states(n), steps(n))
  }

  lemma Descend(ix: Index, disk: Disk, states: nat -> Sys, steps: nat -> Step, n: nat)
    requires GoodIndex(ix, disk) && Safe(ix, disk, states(n)) && Books(states(n)) && Endless(ix, disk, states, steps)
    ensures false
    decreases ForwardRank(states(n).forward), BatchLeft(states(n).forward, states(n).work.jobs),
        ReadsLeft(states(n).work.jobs)
  {
    hide GoodIndex, Safe, Books, Enabled, Do, FutilePoll, Internal, ForwardRank, BatchLeft, ReadsLeft;
    assert Follows(ix, disk, states, steps, n);
    StepSafe(ix, disk, states(n), steps(n));
    StepBooks(ix, disk, states(n), steps(n));
    StepNearer(ix, disk, states(n), steps(n));
    Descend(ix, disk, states, steps, n + 1);
  }

  /** No schedule goes on for ever: from a reachable state, however the threads
      are interleaved, only finitely many steps of the engine's own can follow
      that do not poll in vain (those that do leave the state as it is). */
  lemma EveryScheduleEnds(ix: Index, disk: Disk, s: Sys, before: seq<Step>, states: nat -> Sys, steps: nat -> Step)
    requires GoodIndex(ix, disk) && Initial(s) && Leads(ix, disk, s, before, states(0))
    ensures !Endless(ix, disk, states, steps)
  {
    hide GoodIndex, Leads, Initial, Safe, Books, Endless;
    InitialSafe(ix, disk, s);
    InitialBooks(s);
    RunBooks(ix, disk, s, before, states(0));
    if Endless(ix, disk, states, steps) {
      Descend(ix, disk, states, steps, 0);
    }
  }
}
