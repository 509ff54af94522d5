/** What the pipeline does to the expert cache: every run of it is a run of cache
    operations in which only complete blocks are inserted, one for each hand-over,
    and a pinned expert that nobody is still loading stays. */
module PipelineCache {
  import opened LruModel
  import opened ExpertDisk
  import opened Assembling
  import opened AssemblySteps
  import opened WiringSteps
  import opened Pipeline
  import opened PipelineSafety
  import opened PipelineDelivery
  import Lru = LruProperties

  // ---------------------------------------------------------------- runs of cache operations

  /** What a step does to the cache: a callback's hand-over and a getter's own load
      insert the key's block as it stands on disk. */
  ghost function CacheOps(ix: Index, disk: Disk, s: Sys, step: Step): seq<Lru.Op>
    requires GoodIndex(ix, disk) && Enabled(ix, disk, s, step)
  {
    match step
    case Scattering(j, Move) =>
      var key := s.work.asms[Cur(s.work, j).assem].key;
      [Lru.OpInsert(key, KeyBytes(ix, disk, key))]
    case GetNext =>
      var key := s.forward.g.key;
      if s.forward.at.Keep? then [Lru.OpInsert(key, KeyBytes(ix, disk, key))]
      else if s.forward.at.Try? || s.forward.at.Poll? then [Lru.OpCopy(key, |s.scratch[s.forward.g.scratch]|)]
      else []
    case PinServed => [Lru.OpPin(s.forward.g.key)]
    case PinKey(key) => [Lru.OpPin(key)]
    case BoostKey(key, cycles) => [Lru.OpBoost(key, cycles)]
    case _ => []
  }

  lemma OneOp(c: Cache, op: Lru.Op)
    requires Valid(c)
    ensures Lru.Run(c, [op]) == Lru.Apply(c, op)
  {
    hide Valid, Lru.Apply;
    assert [op][..0] == [];
    assert Lru.Run(c, []) == c;
  }

  lemma MoveInserts(ix: Index, disk: Disk, s: Sys, j: nat)
    requires GoodIndex(ix, disk) && Safe(ix, disk, s) && Doing(s.work, j, Move) && Valid(s.lru)
    ensures var key := s.work.asms[Cur(s.work, j).assem].key;
      DoScatter(s, j, Move).lru == Insert(s.lru, key, KeyBytes(ix, disk, key)).0
  {
    MoveKeeps(ix, disk, s.work, j);
    hide GoodIndex, Inv, Valid, CacheOk, HeldOk, ForwardOk, AnswersOk, KeyBytes, DoMove, Insert;
  }

  lemma MoveActs(ix: Index, disk: Disk, s: Sys, j: nat)
    requires GoodIndex(ix, disk) && Safe(ix, disk, s) && Enabled(ix, disk, s, Scattering(j, Move))
    ensures Do(ix, disk, s, Scattering(j, Move)).lru == Lru.Run(s.lru, CacheOps(ix, disk, s, Scattering(j, Move)))
  {
    hide GoodIndex, Safe, Valid, KeyBytes, DoScatter, Insert, Lru.Run;
    MoveInserts(ix, disk, s, j);
    var key := s.work.asms[Cur(s.work, j).assem].key;
    OneOp(s.lru, Lru.OpInsert(key, KeyBytes(ix, disk, key)));
  }

  lemma GetterActs(ix: Index, disk: Disk, s: Sys)
    requires GoodIndex(ix, disk) && Safe(ix, disk, s) && Enabled(ix, disk, s, GetNext)
    ensures Do(ix, disk, s, GetNext).lru == Lru.Run(s.lru, CacheOps(ix, disk, s, GetNext))
  {
    hide GoodIndex, Inv, Valid, Exact, HeldOk, GetterOk, AnswersOk, KeyBytes, Shows, Insert, CopyTo, Lru.Run;
    var key := s.forward.g.key;
    OneOp(s.lru, Lru.OpInsert(key, KeyBytes(ix, disk, key)));
    OneOp(s.lru, Lru.OpCopy(key, |s.scratch[s.forward.g.scratch]|));
    assert Lru.Run(s.lru, []) == s.lru by { NoOp(s.lru); }
  }

  lemma NoOp(c: Cache)
    requires Valid(c)
    ensures Lru.Run(c, []) == c
  {
  }

  lemma OtherActs(ix: Index, disk: Disk, s: Sys, step: Step)
    requires GoodIndex(ix, disk) && Safe(ix, disk, s) && Enabled(ix, disk, s, step)
    requires !step.GetNext? && !(step.Scattering? && step.act.Move?)
    ensures Do(ix, disk, s, step).lru == Lru.Run(s.lru, CacheOps(ix, disk, s, step))
  {
    hide GoodIndex, Inv, Valid, Exact, HeldOk, ForwardOk, AnswersOk, KeyBytes, SyncLoad, Pin, Boost, Lru.Run, Parts,
         TotalSize, Loadable, Over, Resized, RunReadable, CopySafe, DoStage, DoGet;
    NoOp(s.lru);
    if step.PinServed? {
      OneOp(s.lru, Lru.OpPin(s.forward.g.key));
    } else if step.PinKey? {
      OneOp(s.lru, Lru.OpPin(step.key));
    } else if step.BoostKey? {
      OneOp(s.lru, Lru.OpBoost(step.key, step.cycles));
    } else {
      LeavesCache(ix, disk, s, step);
    }
  }

  lemma LeavesCache(ix: Index, disk: Disk, s: Sys, step: Step)
    requires Enabled(ix, disk, s, step) && !step.GetNext? && !(step.Scattering? && step.act.Move?)
    requires !step.PinServed? && !step.PinKey? && !step.BoostKey?
    ensures Do(ix, disk, s, step).lru == s.lru
  {
    hide GoodIndex, Valid, SyncLoad, Insert, Pin, Boost, Parts, TotalSize, Loadable, Over, Resized, RunReadable,
         CopySafe, Resume, DoCreate;
  }

  lemma StepActs(ix: Index, disk: Disk, s: Sys, step: Step)
    requires GoodIndex(ix, disk) && Safe(ix, disk, s) && Enabled(ix, disk, s, step)
    ensures Valid(s.lru) && Do(ix, disk, s, step).lru == Lru.Run(s.lru, CacheOps(ix, disk, s, step))
  {
    assert Valid(s.lru) by { SafeValid(ix, disk, s); }
    hide GoodIndex, Safe, Valid, Enabled, Do, CacheOps, Lru.Run;
    if step.GetNext? {
      GetterActs(ix, disk, s);
    } else if step.Scattering? && step.act.Move? {
      MoveActs(ix, disk, s, step.job);
    } else {
      OtherActs(ix, disk, s, step);
    }
  }

  lemma SafeValid(ix: Index, disk: Disk, s: Sys)
    requires GoodIndex(ix, disk) && Safe(ix, disk, s)
    ensures Valid(s.lru)
  {
    hide GoodIndex, Inv, Valid, Exact, HeldOk, ForwardOk, AnswersOk;
  }

  /** The operations of a whole run. */
  ghost function AllCacheOps(ix: Index, disk: Disk, s: Sys, steps: seq<Step>, t: Sys): seq<Lru.Op>
    requires GoodIndex(ix, disk) && Leads(ix, disk, s, steps, t)
    decreases |steps|
  {
    if steps == [] then []
    else CacheOps(ix, disk, s, steps[0]) + AllCacheOps(ix, disk, Do(ix, disk, s, steps[0]), steps[1..], t)
  }

  lemma {:induction false} RunConcat(c: Cache, a: seq<Lru.Op>, b: seq<Lru.Op>)
    requires Valid(c)
    ensures Lru.Run(c, a + b) == Lru.Run(Lru.Run(c, a), b)
  {
    hide Valid, Lru.Apply;
    if b == [] {
      assert a + b == a;
    } else {
      var n := |b| - 1;
      RunConcat(c, a, b[..n]);
      assert (a + b)[..|a + b| - 1] == a + b[..n];
    }
  }

  lemma {:induction false} RunActs(ix: Index, disk: Disk, s: Sys, steps: seq<Step>, t: Sys)
    requires GoodIndex(ix, disk) && Safe(ix, disk, s) && Leads(ix, disk, s, steps, t)
    ensures Valid(s.lru) && t.lru == Lru.Run(s.lru, AllCacheOps(ix, disk, s, steps, t))
    decreases |steps|
  {
    hide GoodIndex, Safe, Valid, Enabled, Do, CacheOps, Lru.Run;
    SafeValid(ix, disk, s);
    NoOp(s.lru);
    if steps != [] {
      var u := Do(ix, disk, s, steps[0]);
      StepActs(ix, disk, s, steps[0]);
      StepSafe(ix, disk, s, steps[0]);
      RunActs(ix, disk, u, steps[1..], t);
      RunConcat(s.lru, CacheOps(ix, disk, s, steps[0]), AllCacheOps(ix, disk, u, steps[1..], t));
    }
  }

  /** Whatever the threads do in whatever order, the cache has lived through a plain
      sequence of its own operations, starting empty: what is proved of such
      sequences holds in the pipeline. */
  lemma CacheRunsAlone(ix: Index, disk: Disk, s: Sys, steps: seq<Step>, t: Sys)
    requires GoodIndex(ix, disk) && Initial(s) && Leads(ix, disk, s, steps, t)
    ensures t.lru == Lru.Run(Empty(s.lru.capacity), AllCacheOps(ix, disk, s, steps, t))
  {
    InitialSafe(ix, disk, s);
    hide GoodIndex, Safe, Leads, AllCacheOps, Lru.Run;
    RunActs(ix, disk, s, steps, t);
  }

  // ---------------------------------------------------------------- one insertion for each hand-over

  /** How often assembly a has been handed over. */
  function HandedOver(w: Work, a: nat): nat {
    if a < |w.asms| then w.asms[a].handovers else 0
  }

  /** The step is the insertion of assembly a's block. */
  ghost predicate Inserts(s: Sys, step: Step, a: nat) {
    step.Scattering? && step.act.Move? && Doing(s.work, step.job, Move) && Cur(s.work, step.job).assem == a
  }

  lemma ScatterHandsOver(s: Sys, j: nat, act: Act, a: nat)
    requires Doing(s.work, j, act) && Valid(s.lru)
    ensures HandedOver(DoScatter(s, j, act).work, a)
         == HandedOver(s.work, a) + (if Inserts(s, Scattering(j, act), a) then 1 else 0)
  {
    hide Valid, Insert, CopySafe;
  }

  lemma StepHandsOver(ix: Index, disk: Disk, s: Sys, step: Step, a: nat)
    requires Enabled(ix, disk, s, step)
    ensures HandedOver(Do(ix, disk, s, step).work, a)
         == HandedOver(s.work, a) + (if Inserts(s, step, a) then 1 else 0)
  {
    hide GoodIndex, Valid, SyncLoad, CopyTo, Insert, Pin, Boost, Parts, TotalSize, Loadable, Over, Resized, RunReadable,
         CopySafe, Resume, NonEmptyParts, Zeros, DoScatter;
    if step.Scattering? {
      ScatterHandsOver(s, step.job, step.act, a);
    }
  }

  /** The number of steps of the run that insert assembly a's block. */
  ghost function Insertions(ix: Index, disk: Disk, s: Sys, steps: seq<Step>, t: Sys, a: nat): nat
    requires Leads(ix, disk, s, steps, t)
    decreases |steps|
  {
    if steps == [] then 0
    else (if Inserts(s, steps[0], a) then 1 else 0) + Insertions(ix, disk, Do(ix, disk, s, steps[0]), steps[1..], t, a)
  }

  lemma {:induction false} RunHandsOver(ix: Index, disk: Disk, s: Sys, steps: seq<Step>, t: Sys, a: nat)
    requires Leads(ix, disk, s, steps, t)
    ensures HandedOver(t.work, a) == HandedOver(s.work, a) + Insertions(ix, disk, s, steps, t, a)
    decreases |steps|
  {
    hide Enabled, Do, Inserts, HandedOver;
    if steps != [] {
      StepHandsOver(ix, disk, s, steps[0], a);
      RunHandsOver(ix, disk, Do(ix, disk, s, steps[0]), steps[1..], t, a);
    }
  }

  /** The books on hand-overs are the insertions made: over every run an assembly
      counts as handed over once for each step that put its complete block into the
      cache, and each such step is exactly an insertion of the key's disk bytes. */
  lemma HandoversAreInsertions(ix: Index, disk: Disk, s: Sys, steps: seq<Step>, t: Sys, a: nat)
    requires GoodIndex(ix, disk) && Initial(s) && Leads(ix, disk, s, steps, t) && a < |t.work.asms|
    ensures t.work.asms[a].handovers == Insertions(ix, disk, s, steps, t, a)
    ensures forall step :: Enabled(ix, disk, t, step) && Inserts(t, step, a) ==>
      var key := t.work.asms[a].key;
      Valid(t.lru) && Do(ix, disk, t, step).lru == Insert(t.lru, key, KeyBytes(ix, disk, key)).0
  {
    RunHandsOver(ix, disk, s, steps, t, a);
    assert HandedOver(s.work, a) == 0;
    hide GoodIndex, Initial, Leads, Safe, Insertions, Valid, KeyBytes, Insert, Lru.Run;
    InitialSafe(ix, disk, s);
    RunSafe(ix, disk, s, steps, t);
    forall step | Enabled(ix, disk, t, step) && Inserts(t, step, a)
      ensures var key := t.work.asms[a].key;
        Valid(t.lru) && Do(ix, disk, t, step).lru == Insert(t.lru, key, KeyBytes(ix, disk, key)).0
    {
      InsertionIs(ix, disk, t, step, a);
    }
  }

  lemma InsertionIs(ix: Index, disk: Disk, t: Sys, step: Step, a: nat)
    requires GoodIndex(ix, disk) && Safe(ix, disk, t) && Enabled(ix, disk, t, step) && Inserts(t, step, a)
    ensures Valid(t.lru)
    ensures var key := t.work.asms[a].key;
      Do(ix, disk, t, step).lru == Insert(t.lru, key, KeyBytes(ix, disk, key)).0
  {
    hide GoodIndex, Safe, Valid, KeyBytes, DoScatter, Insert;
    MoveInserts(ix, disk, t, step.job);
  }

  // ---------------------------------------------------------------- a settled pin

  /** The getter is about to load k itself, or to decide so. */
  predicate AboutToLoad(f: Forward, k: ExpertKey) {
    f.Get? && f.g.key == k && (f.at.Load? || f.at.Keep? || f.at == ProbeInFlight(false))
  }

  /** k is resident and pinned, and nobody is on the way to inserting it again. */
  ghost predicate Settled(s: Sys, k: ExpertKey) {
    && k in s.lru.table && s.lru.table[k].pinned
    && (forall a: nat :: a < |s.work.asms| && s.work.asms[a].key == k ==> s.work.asms[a].handovers > 0)
    && !AboutToLoad(s.forward, k)
  }

  /** The wait for k times out. */
  predicate GivesUp(s: Sys, step: Step, k: ExpertKey) {
    step.TimeOut? && s.forward.Get? && s.forward.g.key == k
  }

  lemma MovedIsUndelivered(ix: Index, disk: Disk, s: Sys, j: nat)
    requires GoodIndex(ix, disk) && Safe(ix, disk, s) && Doing(s.work, j, Move)
    ensures s.work.asms[Cur(s.work, j).assem].handovers == 0
  {
    MoveKeeps(ix, disk, s.work, j);
    hide GoodIndex, Inv, CacheOk, HeldOk, ForwardOk, AnswersOk;
  }

  lemma NoInsertionOf(ix: Index, disk: Disk, s: Sys, step: Step, k: ExpertKey)
    requires GoodIndex(ix, disk) && Safe(ix, disk, s) && Enabled(ix, disk, s, step) && Settled(s, k)
    ensures forall i :: 0 <= i < |CacheOps(ix, disk, s, step)| ==> Lru.Leaves(CacheOps(ix, disk, s, step)[i], k)
  {
    hide GoodIndex, Safe, KeyBytes, Valid;
    if step.Scattering? && step.act.Move? {
      MovedIsUndelivered(ix, disk, s, step.job);
    }
  }

  /** Any other step leaves the forward thread where it is, or well before a load. */
  lemma OthersLoadNothing(ix: Index, disk: Disk, s: Sys, step: Step)
    requires Enabled(ix, disk, s, step) && !step.GetNext? && !step.TimeOut? && !step.LoadSync?
    ensures var f := Do(ix, disk, s, step).forward;
      f == s.forward || !f.Get? || f.at.Try? || f.at == ProbeLru(false) || f.at.Served?
  {
    hide GoodIndex, Valid, Insert, Pin, Boost, Parts, TotalSize, Loadable, Over, Resized, RunReadable, CopySafe,
         DoCreate, DoWire, SetPhase, DoScatter;
    if step.Scattering? {
      ScatterKeepsForward(s, step.job, step.act);
    }
  }

  lemma ScatterKeepsForward(s: Sys, j: nat, act: Act)
    requires Doing(s.work, j, act) && Valid(s.lru)
    ensures DoScatter(s, j, act).forward == s.forward
  {
    hide Valid, Insert;
  }

  lemma GetterMoves(ix: Index, disk: Disk, s: Sys)
    requires Enabled(ix, disk, s, GetNext)
    ensures var f := Do(ix, disk, s, GetNext).forward;
      && (f.Get? ==> f.g == s.forward.g && !f.at.Keep?
                     && (f.at.Load? ==> s.forward.at == ProbeInFlight(false) && f.g.key !in s.inFlight)
                     && (f.at == ProbeInFlight(false) ==> f.g.key !in s.lru.table))
  {
    hide Valid, CopyTo, Insert;
  }

  lemma LoadMoves(ix: Index, disk: Disk, s: Sys, unmapped: set<Shard>)
    requires Enabled(ix, disk, s, LoadSync(unmapped))
    ensures var f := Do(ix, disk, s, LoadSync(unmapped)).forward;
      f.Get? ==> f.g == s.forward.g && s.forward.at.Load? && f.at.Keep?
  {
    hide GoodIndex, SyncLoad, Over;
  }

  lemma GetterStaysAway(ix: Index, disk: Disk, s: Sys, step: Step, k: ExpertKey)
    requires Enabled(ix, disk, s, step) && Settled(s, k) && !GivesUp(s, step, k)
    ensures !AboutToLoad(Do(ix, disk, s, step).forward, k)
  {
    if step.GetNext? {
      hide Enabled, Do;
      GetterMoves(ix, disk, s);
    } else if step.LoadSync? {
      hide Enabled, Do;
      LoadMoves(ix, disk, s, step.unmapped);
    } else if !step.TimeOut? {
      hide Enabled, Do;
      OthersLoadNothing(ix, disk, s, step);
    }
  }

  lemma StagedIsAbsent(ix: Index, s: Sys, a: nat)
    requires s.forward.Stage? && s.forward.todo != []
    ensures |s.work.asms| <= a < |DoStage(ix, s).work.asms| ==> DoStage(ix, s).work.asms[a].key !in s.lru.table
  {
    hide Parts, TotalSize, NonEmptyParts, Zeros;
  }

  /** A resident key is not staged. */
  lemma NoNewAssembly(ix: Index, disk: Disk, s: Sys, step: Step, k: ExpertKey, a: nat)
    requires Enabled(ix, disk, s, step) && k in s.lru.table && Extends(s, step, Do(ix, disk, s, step).work)
    requires a < |Do(ix, disk, s, step).work.asms| && Do(ix, disk, s, step).work.asms[a].key == k
    ensures a < |s.work.asms| && s.work.asms[a].key == k
  {
    if step.StageNext? {
      hide Parts, TotalSize, DoStage, FailedJob, Fails;
      StagedIsAbsent(ix, s, a);
    } else {
      hide Enabled, Do, FailedJob, Fails;
    }
  }

  lemma StepSettled(ix: Index, disk: Disk, s: Sys, step: Step, k: ExpertKey)
    requires GoodIndex(ix, disk) && Safe(ix, disk, s) && Enabled(ix, disk, s, step)
    requires Settled(s, k) && !GivesUp(s, step, k)
    ensures Settled(Do(ix, disk, s, step), k)
    ensures forall a: nat :: a < |Do(ix, disk, s, step).work.asms| && Do(ix, disk, s, step).work.asms[a].key == k ==>
      a < |s.work.asms| && s.work.asms[a].key == k
  {
    var t := Do(ix, disk, s, step);
    NoInsertionOf(ix, disk, s, step, k);
    GetterStaysAway(ix, disk, s, step, k);
    WiredFits(ix, disk, s);
    hide GoodIndex, Safe, Enabled, Do, CacheOps, Valid, AboutToLoad, Inserts, Lru.Run, Lru.Leaves, Extends;
    StepActs(ix, disk, s, step);
    Lru.PinnedSurvives(s.lru, CacheOps(ix, disk, s, step), k);
    StepExtends(ix, disk, s, step);
    forall a: nat | a < |t.work.asms| && t.work.asms[a].key == k
      ensures t.work.asms[a].handovers > 0 && a < |s.work.asms| && s.work.asms[a].key == k
    {
      NoNewAssembly(ix, disk, s, step, k, a);
      StepHandsOver(ix, disk, s, step, a);
    }
  }

  /** No wait for k times out in the run. */
  ghost predicate Patient(ix: Index, disk: Disk, s: Sys, steps: seq<Step>, k: ExpertKey)
    decreases |steps|
  {
    steps == [] || (!GivesUp(s, steps[0], k) && Enabled(ix, disk, s, steps[0])
                    && Patient(ix, disk, Do(ix, disk, s, steps[0]), steps[1..], k))
  }

  lemma {:induction false} RunSettled(ix: Index, disk: Disk, s: Sys, steps: seq<Step>, t: Sys, k: ExpertKey)
    requires GoodIndex(ix, disk) && Safe(ix, disk, s) && Leads(ix, disk, s, steps, t)
    requires Settled(s, k) && Patient(ix, disk, s, steps, k)
    ensures Safe(ix, disk, t) && Settled(t, k)
    ensures forall a: nat :: a < |t.work.asms| && t.work.asms[a].key == k ==>
      a < |s.work.asms| && s.work.asms[a].key == k
    decreases |steps|
  {
    hide GoodIndex, Safe, Enabled, Do, GivesUp;
    if steps != [] {
      StepSafe(ix, disk, s, steps[0]);
      StepSettled(ix, disk, s, steps[0], k);
      hide Settled;
      RunSettled(ix, disk, Do(ix, disk, s, steps[0]), steps[1..], t, k);
    }
  }

  /** A pinned expert that nobody is still loading is there for good: however the
      run goes on, whatever is staged, evicted or boosted, as long as no wait for it
      times out, it stays resident and pinned with its disk bytes, and it is never
      read again. */
  lemma SettledPinStays(ix: Index, disk: Disk, s0: Sys, before: seq<Step>, s: Sys, after: seq<Step>, t: Sys,
                        k: ExpertKey)
    requires GoodIndex(ix, disk) && Initial(s0) && Leads(ix, disk, s0, before, s) && Leads(ix, disk, s, after, t)
    requires Settled(s, k) && Patient(ix, disk, s, after, k)
    ensures k in t.lru.table && t.lru.table[k].pinned && t.lru.table[k].handle == KeyBytes(ix, disk, k)
    ensures forall a: nat :: a < |t.work.asms| && t.work.asms[a].key == k ==> a < |s.work.asms|
  {
    hide GoodIndex, Leads, Initial, Inv, Valid, KeyBytes, HeldOk, ForwardOk, AnswersOk, Patient;
    InitialSafe(ix, disk, s0);
    RunSafe(ix, disk, s0, before, s);
    RunSettled(ix, disk, s, after, t, k);
  }

  // ---------------------------------------------------------------- when a getter loads itself

  predicate Loading(f: Forward, k: ExpertKey) {
    f.Get? && f.g.key == k && f.at.Load?
  }

  /** In the run the getter for k stopped waiting, or found k not in flight. */
  ghost predicate WaitEnds(ix: Index, disk: Disk, s: Sys, steps: seq<Step>, k: ExpertKey)
    decreases |steps|
  {
    steps != [] && Enabled(ix, disk, s, steps[0])
    && (GivesUp(s, steps[0], k)
        || (steps[0].GetNext? && s.forward.g.key == k && s.forward.at == ProbeInFlight(false) && k !in s.inFlight)
        || WaitEnds(ix, disk, Do(ix, disk, s, steps[0]), steps[1..], k))
  }

  lemma StepLoads(ix: Index, disk: Disk, s: Sys, step: Step, k: ExpertKey)
    requires Enabled(ix, disk, s, step) && !Loading(s.forward, k) && Loading(Do(ix, disk, s, step).forward, k)
    ensures GivesUp(s, step, k)
      || (step.GetNext? && s.forward.g.key == k && s.forward.at == ProbeInFlight(false) && k !in s.inFlight)
  {
    if step.GetNext? {
      GetterMoves(ix, disk, s);
      hide Do, Valid;
    } else if step.LoadSync? {
      LoadMoves(ix, disk, s, step.unmapped);
      hide Enabled, Do;
    } else if !step.TimeOut? {
      OthersLoadNothing(ix, disk, s, step);
      hide Enabled, Do;
    }
  }

  /** A getter loads an expert itself, blocking, only after a wait for it timed out
      or after it found the key not in flight once more, staging notwithstanding. */
  lemma {:induction false} LoadHasReason(ix: Index, disk: Disk, s: Sys, steps: seq<Step>, t: Sys, k: ExpertKey)
    requires Leads(ix, disk, s, steps, t) && !Loading(s.forward, k) && Loading(t.forward, k)
    ensures WaitEnds(ix, disk, s, steps, k)
    decreases |steps|
  {
    hide Enabled, Do, GivesUp, Loading;
    if steps != [] {
      var u := Do(ix, disk, s, steps[0]);
      if Loading(u.forward, k) {
        StepLoads(ix, disk, s, steps[0], k);
      } else {
        LoadHasReason(ix, disk, u, steps[1..], t, k);
      }
    }
  }
}
