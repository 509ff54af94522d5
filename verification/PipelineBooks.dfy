/** The bookkeeping of the pipeline: the pending counter, the read queue, the
    in-flight set and the mutex agree with what the threads are doing; when
    nothing is pending everything staged has been handed over. */
module PipelineBooks {
  import opened Bytes
  import opened LruModel
  import opened ExpertDisk
  import opened Runs
  import opened Assembling
  import opened AssemblySteps
  import opened WiringSteps
  import opened Pipeline

  // ---------------------------------------------------------------- the invariant

  /** Submitted, and its callback not yet followed by the countdown of pending. */
  predicate Outstanding(ph: Phase) {
    ph.Counted? || ph.Queued? || ph.Reading? || ph.Scatter? || ph.Returned?
  }

  function OutstandingJobs(jobs: seq<Job>): set<nat> {
    set j: nat | j < |jobs| && Outstanding(jobs[j].phase)
  }

  ghost predicate PendingOk(jobs: seq<Job>, pending: int) {
    pending == |OutstandingJobs(jobs)|
  }

  predicate IsQueued(jobs: seq<Job>, j: nat) {
    j < |jobs| && jobs[j].phase.Queued?
  }

  ghost predicate QueueOk(jobs: seq<Job>, queue: seq<nat>) {
    && Distinct(queue)
    && (forall i :: 0 <= i < |queue| ==> IsQueued(jobs, queue[i]))
    && (forall j: nat :: IsQueued(jobs, j) ==> j in queue)
  }

  predicate Unsubmitted(jobs: seq<Job>, j: nat) {
    j < |jobs| && (jobs[j].phase.Built? || jobs[j].phase.Counted?)
  }

  /** Only the forward thread's submission loop leaves jobs unsubmitted: the
      current one and those behind it. */
  ghost predicate SubmitOk(jobs: seq<Job>, f: Forward) {
    && (f.Submit? ==> f.job < |jobs|)
    && (forall j: nat :: Unsubmitted(jobs, j) <==> f.Submit? && f.job <= j < |jobs|)
    && (forall j: nat :: j < |jobs| && jobs[j].phase.Counted? ==> f.Submit? && j == f.job)
  }

  predicate Erasing(jobs: seq<Job>, j: nat) {
    j < |jobs| && jobs[j].phase.Scatter? && jobs[j].phase.act.Erase?
  }

  /** The mutex is held exactly by the callback between move-out and erase. */
  ghost predicate LockOk(jobs: seq<Job>, lock: Option<nat>) {
    forall j: nat :: Erasing(jobs, j) <==> lock == Some(j)
  }

  predicate Live(w: Work, a: nat) {
    a < |w.asms| && !w.asms[a].erased
  }

  ghost predicate LiveKey(w: Work, k: ExpertKey) {
    exists a: nat :: a < w.wired && Live(w, a) && w.asms[a].key == k
  }

  /** Every key in flight has an unfinished assembly. */
  ghost predicate InFlightOk(w: Work, inFlight: set<ExpertKey>) {
    forall k :: k in inFlight ==> LiveKey(w, k)
  }

  ghost predicate WiredOk(w: Work, f: Forward) {
    !f.Stage? ==> w.wired == |w.asms|
  }

  ghost predicate Books(s: Sys) {
    && PendingOk(s.work.jobs, s.pending) && QueueOk(s.work.jobs, s.queue) && SubmitOk(s.work.jobs, s.forward)
    && LockOk(s.work.jobs, s.lock) && InFlightOk(s.work, s.inFlight) && WiredOk(s.work, s.forward)
  }

  // ---------------------------------------------------------------- one phase changes

  lemma OutstandingElsewhere(w: Work, j: nat, ph: Phase)
    requires j < |w.jobs|
    ensures var (was, now) := (OutstandingJobs(w.jobs), OutstandingJobs(SetPhase(w, j, ph).jobs));
      && was - {j} == now - {j}
      && (j in was <==> Outstanding(w.jobs[j].phase)) && (j in now <==> Outstanding(ph))
  {
    hide Outstanding;
  }

  lemma OutstandingChanged(w: Work, j: nat, ph: Phase)
    requires j < |w.jobs|
    ensures var (was, now) := (OutstandingJobs(w.jobs), OutstandingJobs(SetPhase(w, j, ph).jobs));
      |now| - |was| == (if Outstanding(ph) then 1 else 0) - (if Outstanding(w.jobs[j].phase) then 1 else 0)
  {
    hide Outstanding, OutstandingJobs, SetPhase;
    OutstandingElsewhere(w, j, ph);
    SizeWithout(OutstandingJobs(w.jobs), j);
    SizeWithout(OutstandingJobs(SetPhase(w, j, ph).jobs), j);
  }

  lemma SizeWithout<T>(s: set<T>, x: T)
    ensures |s| == |s - {x}| + if x in s then 1 else 0
  {
    if x !in s { assert s - {x} == s; }
  }

  /** The queue is untouched when the job neither enters nor leaves it. */
  lemma QueueSame(w: Work, j: nat, ph: Phase, queue: seq<nat>)
    requires QueueOk(w.jobs, queue) && j < |w.jobs| && !w.jobs[j].phase.Queued? && !ph.Queued?
    ensures QueueOk(SetPhase(w, j, ph).jobs, queue)
  {
    hide Distinct;
    var jobs := SetPhase(w, j, ph).jobs;
    assert !IsQueued(w.jobs, j);
    assert forall k: nat :: IsQueued(jobs, k) <==> IsQueued(w.jobs, k);
  }

  lemma LockSame(w: Work, j: nat, ph: Phase, lock: Option<nat>)
    requires LockOk(w.jobs, lock) && j < |w.jobs| && (Erasing(w.jobs, j) <==> ph.Scatter? && ph.act.Erase?)
    ensures LockOk(SetPhase(w, j, ph).jobs, lock)
  {
    var jobs := SetPhase(w, j, ph).jobs;
    assert forall k: nat :: Erasing(jobs, k) <==> Erasing(w.jobs, k);
  }

  lemma SubmitSame(w: Work, j: nat, ph: Phase, f: Forward)
    requires SubmitOk(w.jobs, f) && j < |w.jobs| && !Unsubmitted(w.jobs, j) && !ph.Built? && !ph.Counted?
    ensures SubmitOk(SetPhase(w, j, ph).jobs, f)
  {
    var jobs := SetPhase(w, j, ph).jobs;
    assert forall k: nat :: Unsubmitted(jobs, k) <==> Unsubmitted(w.jobs, k);
  }

  /** Assemblies keep their keys and none is marked erased. */
  ghost predicate SameLives(w: Work, v: Work) {
    && |w.asms| == |v.asms| && w.wired == v.wired
    && forall a: nat :: a < |w.asms| ==> v.asms[a].key == w.asms[a].key && v.asms[a].erased == w.asms[a].erased
  }

  lemma InFlightSame(w: Work, v: Work, inFlight: set<ExpertKey>)
    requires SameLives(w, v) && InFlightOk(w, inFlight)
    ensures InFlightOk(v, inFlight)
  {
    forall k | k in inFlight ensures LiveKey(v, k) {
      var a: nat :| a < w.wired && Live(w, a) && w.asms[a].key == k;
      assert Live(v, a);
    }
  }

  // ---------------------------------------------------------------- reader steps

  /** A job moves on inside a reader thread: neither to or from the queue, nor
      into or out of the critical section. */
  lemma ReaderMoves(s: Sys, v: Work, j: nat, ph: Phase)
    requires Books(s) && j < |s.work.jobs| && v.jobs == SetPhase(s.work, j, ph).jobs && SameLives(s.work, v)
    requires Outstanding(s.work.jobs[j].phase) && Outstanding(ph) && !s.work.jobs[j].phase.Queued? && !ph.Queued?
    requires !Unsubmitted(s.work.jobs, j) && !ph.Counted?
    requires Erasing(s.work.jobs, j) <==> ph.Scatter? && ph.act.Erase?
    ensures Books(s.(work := v))
  {
    hide Outstanding, QueueOk, SubmitOk, LockOk, InFlightOk, OutstandingJobs, Erasing, SameLives;
    assert !ph.Built? by { NotBuilt(ph); }
    OutstandingChanged(s.work, j, ph);
    QueueSame(s.work, j, ph, s.queue);
    SubmitSame(s.work, j, ph, s.forward);
    LockSame(s.work, j, ph, s.lock);
    InFlightSame(s.work, v, s.inFlight);
    assert |v.asms| == |s.work.asms| && v.wired == s.work.wired by { LivesCount(s.work, v); }
  }

  lemma NotBuilt(ph: Phase)
    requires Outstanding(ph)
    ensures !ph.Built?
  {
  }

  lemma LivesCount(w: Work, v: Work)
    requires SameLives(w, v)
    ensures |v.asms| == |w.asms| && v.wired == w.wired
  {
  }

  lemma TakeBooks(s: Sys)
    requires Books(s) && s.queue != [] && s.queue[0] < |s.work.jobs|
    ensures Books(DoTake(s))
  {
    var j, jobs := s.queue[0], SetPhase(s.work, s.queue[0], Reading).jobs;
    assert IsQueued(s.work.jobs, s.queue[0]);
    assert QueueOk(jobs, s.queue[1..]) by {
      forall i | 0 <= i < |s.queue[1..]| ensures IsQueued(jobs, s.queue[1..][i]) {
        assert IsQueued(s.work.jobs, s.queue[i + 1]) && s.queue[i + 1] != s.queue[0];
      }
      forall k: nat | IsQueued(jobs, k) ensures k in s.queue[1..] {
        assert IsQueued(s.work.jobs, k) && k != j;
        assert k in s.queue && s.queue == [s.queue[0]] + s.queue[1..];
      }
    }
    hide QueueOk, SubmitOk, LockOk, InFlightOk, OutstandingJobs;
    OutstandingChanged(s.work, j, Reading);
    SubmitSame(s.work, j, Reading, s.forward);
    LockSame(s.work, j, Reading, s.lock);
    InFlightSame(s.work, SetPhase(s.work, j, Reading), s.inFlight);
  }

  lemma CompleteBooks(s: Sys, j: nat)
    requires Books(s) && j < |s.work.jobs| && s.work.jobs[j].phase.Returned?
    ensures Books(DoComplete(s, j))
  {
    var ph := Done(s.work.jobs[j].phase.ok);
    hide QueueOk, SubmitOk, LockOk, InFlightOk, OutstandingJobs;
    OutstandingChanged(s.work, j, ph);
    QueueSame(s.work, j, ph, s.queue);
    SubmitSame(s.work, j, ph, s.forward);
    LockSame(s.work, j, ph, s.lock);
    InFlightSame(s.work, SetPhase(s.work, j, ph), s.inFlight);
  }

  lemma ReadBooks(disk: Disk, s: Sys, j: nat, ok: bool)
    requires Books(s) && j < |s.work.jobs| && s.work.jobs[j].phase.Reading?
      && (ok ==> RunReadable(disk, s.work.jobs[j].run))
    ensures Books(DoRead(disk, s, j, ok))
  {
    var run := s.work.jobs[j].run;
    var ph := if ok then Scatter(disk[run.shard][run.start..run.end], 0, Copy) else Returned(false);
    hide Books;
    ReaderMoves(s, SetPhase(s.work, j, ph), j, ph);
  }

  /** Copying, counting down and the flag exchange happen outside the critical section. */
  lemma ScatterBooks(s: Sys, j: nat, act: Act)
    requires Books(s) && Doing(s.work, j, act) && Valid(s.lru) && !act.Move? && !act.Erase?
    ensures Books(DoScatter(s, j, act))
  {
    hide Books, CopySafe;
    var v := DoScatter(s, j, act).work;
    ReaderMoves(s, v, j, v.jobs[j].phase);
  }

  lemma MoveBooks(s: Sys, j: nat)
    requires Books(s) && Doing(s.work, j, Move) && Valid(s.lru) && s.lock.None?
    ensures Books(DoScatter(s, j, Move))
  {
    hide Valid, Insert, QueueOk, SubmitOk, InFlightOk, OutstandingJobs;
    var v := DoMove(s.work, j);
    var ph := v.jobs[j].phase;
    assert v.jobs == SetPhase(s.work, j, ph).jobs;
    assert LockOk(v.jobs, Some(j)) by {
      assert !Erasing(s.work.jobs, j);
      assert forall k: nat :: Erasing(v.jobs, k) <==> Erasing(s.work.jobs, k) || k == j;
    }
    OutstandingChanged(s.work, j, ph);
    QueueSame(s.work, j, ph, s.queue);
    SubmitSame(s.work, j, ph, s.forward);
    InFlightSame(s.work, v, s.inFlight);
  }

  /** Erasing an assembly takes its key out of the in-flight set. */
  lemma EraseInFlight(w: Work, v: Work, inFlight: set<ExpertKey>, a: nat)
    requires InFlightOk(w, inFlight) && a < |w.asms| && v.asms == w.asms[a := w.asms[a].(erased := true)]
      && v.wired == w.wired
    ensures InFlightOk(v, inFlight - {w.asms[a].key})
  {
    forall k | k in inFlight && k != w.asms[a].key ensures LiveKey(v, k) {
      assert LiveKey(w, k);
      var b: nat :| b < w.wired && Live(w, b) && w.asms[b].key == k;
      assert Live(v, b) && v.asms[b].key == k;
    }
  }

  lemma EraseBooks(s: Sys, j: nat)
    requires Books(s) && Doing(s.work, j, Erase) && Valid(s.lru) && s.lock == Some(j)
    ensures Books(DoScatter(s, j, Erase))
  {
    hide Valid, QueueOk, SubmitOk, InFlightOk, OutstandingJobs;
    var v := DoErase(s.work, j);
    var ph := v.jobs[j].phase;
    assert v.jobs == SetPhase(s.work, j, ph).jobs;
    assert LockOk(v.jobs, None) by {
      assert !Erasing(v.jobs, j);
      forall k: nat ensures !Erasing(v.jobs, k) { assert Erasing(v.jobs, k) ==> Erasing(s.work.jobs, k); }
    }
    OutstandingChanged(s.work, j, ph);
    QueueSame(s.work, j, ph, s.queue);
    SubmitSame(s.work, j, ph, s.forward);
    EraseInFlight(s.work, v, s.inFlight, Cur(s.work, j).assem);
  }

  // ---------------------------------------------------------------- forward steps

  lemma CreateBooks(ix: Index, s: Sys, key: ExpertKey)
    requires InFlightOk(s.work, s.inFlight) && s.work.wired <= |s.work.asms|
    ensures InFlightOk(DoCreate(ix, s.work, key), s.inFlight)
  {
    hide NewAssembly;
    var v := DoCreate(ix, s.work, key);
    forall k | k in s.inFlight ensures LiveKey(v, k) {
      assert LiveKey(s.work, k);
      var a: nat :| a < s.work.wired && Live(s.work, a) && s.work.asms[a].key == k;
      assert Live(v, a) && v.asms[a].key == k;
    }
  }

  lemma StageBooks(ix: Index, s: Sys)
    requires Books(s) && s.forward.Stage? && s.forward.todo != [] && s.work.wired <= |s.work.asms|
    ensures Books(DoStage(ix, s))
  {
    hide InFlightOk, QueueOk, LockOk, PendingOk, DoCreate, TotalSize, Parts;
    var entry := s.forward.todo[0];
    if 0 <= entry.0 < ix.numLayers {
      CreateBooks(ix, s, KeyOf(entry));
      CreateJobs(ix, s.work, KeyOf(entry));
    }
  }

  lemma CreateJobs(ix: Index, w: Work, key: ExpertKey)
    ensures DoCreate(ix, w, key).jobs == w.jobs
  {
  }

  lemma MarkInFlightOk(ix: Index, disk: Disk, s: Sys, runs: seq<Run>)
    requires Inv(ix, disk, s.work) && InFlightOk(s.work, s.inFlight)
    ensures InFlightOk(DoWire(s.work, runs), s.inFlight + PrivateKeys(s.work))
  {
    var w, v := s.work, DoWire(s.work, runs);
    forall k | k in s.inFlight + PrivateKeys(w) ensures LiveKey(v, k) {
      if k in s.inFlight {
        assert LiveKey(w, k);
        var a: nat :| a < w.wired && Live(w, a) && w.asms[a].key == k;
        assert Live(v, a) && v.asms[a].key == k;
      } else {
        var a: nat :| w.wired <= a < |w.asms| && w.asms[a].key == k;
        assert AssemblyOk(ix, disk, w, a);
        assert Live(v, a) && v.asms[a].key == k;
      }
    }
  }

  lemma MarkBooks(ix: Index, disk: Disk, s: Sys, runs: seq<Run>)
    requires Books(s) && Inv(ix, disk, s.work) && s.forward.Stage?
    ensures Books(DoMark(s, runs))
  {
    MarkInFlightOk(ix, disk, s, runs);
    MarkJobs(s, runs);
    MarkSubmit(s, runs);
    hide Inv, InFlightOk, PrivateKeys, PendingOk, QueueOk, SubmitOk, LockOk, Resume;
    assert DoMark(s, runs).work.wired == |DoMark(s, runs).work.asms|;
  }

  /** New jobs are neither outstanding nor queued nor in the critical section. */
  lemma MarkJobs(s: Sys, runs: seq<Run>)
    requires PendingOk(s.work.jobs, s.pending) && QueueOk(s.work.jobs, s.queue) && LockOk(s.work.jobs, s.lock)
    ensures var jobs := DoWire(s.work, runs).jobs;
      PendingOk(jobs, s.pending) && QueueOk(jobs, s.queue) && LockOk(jobs, s.lock)
  {
    var was, jobs := s.work.jobs, DoWire(s.work, runs).jobs;
    assert forall j: nat :: j < |was| ==> jobs[j] == was[j];
    assert OutstandingJobs(jobs) == OutstandingJobs(was);
    assert QueueOk(jobs, s.queue) by {
      hide Distinct;
      assert forall k: nat :: IsQueued(jobs, k) <==> IsQueued(was, k);
    }
    assert LockOk(jobs, s.lock) by {
      assert forall k: nat :: Erasing(jobs, k) <==> Erasing(was, k);
    }
  }

  lemma MarkSubmit(s: Sys, runs: seq<Run>)
    requires SubmitOk(s.work.jobs, s.forward) && s.forward.Stage?
    ensures SubmitOk(DoWire(s.work, runs).jobs, DoMark(s, runs).forward)
  {
    hide PrivateKeys;
    var was, jobs := s.work.jobs, DoWire(s.work, runs).jobs;
    forall k: nat ensures Unsubmitted(jobs, k) <==> |was| <= k < |jobs| {
      assert k < |was| ==> !Unsubmitted(was, k);
    }
  }

  lemma SubmitBooks(s: Sys)
    requires Books(s) && s.forward.Submit? && s.forward.job < |s.work.jobs|
    requires s.work.jobs[s.forward.job].phase.Built? || s.work.jobs[s.forward.job].phase.Counted?
    ensures Books(DoSubmit(s))
  {
    var j, w := s.forward.job, s.work;
    var t := DoSubmit(s);
    var ph := t.work.jobs[j].phase;
    assert t.work == SetPhase(w, j, ph);
    assert SubmitOk(t.work.jobs, t.forward) by {
      assert forall k: nat :: k != j ==> (Unsubmitted(t.work.jobs, k) <==> Unsubmitted(w.jobs, k));
      assert Unsubmitted(w.jobs, j);
    }
    assert !IsQueued(w.jobs, j);
    assert QueueOk(t.work.jobs, t.queue) by {
      forall k: nat ensures IsQueued(t.work.jobs, k) <==> IsQueued(w.jobs, k) || (k == j && ph.Queued?) {
      }
      if ph.Queued? { assert t.queue[|s.queue|] == j; }
    }
    hide QueueOk, SubmitOk, LockOk, InFlightOk, OutstandingJobs, Resume;
    OutstandingChanged(w, j, ph);
    LockSame(w, j, ph, s.lock);
    InFlightSame(w, t.work, s.inFlight);
  }

  /** The steps that leave jobs, assemblies, queue and in-flight set alone. */
  lemma OtherBooks(s: Sys, t: Sys)
    requires Books(s) && t.work == s.work && t.queue == s.queue && t.pending == s.pending && t.lock == s.lock
    requires t.inFlight == s.inFlight
    requires t.forward == s.forward || (!s.forward.Submit? && !t.forward.Submit?
        && (s.forward.Stage? ==> t.forward.Stage?))
    ensures Books(t)
  {
    hide PendingOk, QueueOk, LockOk, InFlightOk;
  }
}
