/** A batch is staged as a whole: every entry with data ends up in flight, with an
    assembly of its own, unless its key was resident or in flight already. */
module PipelineStaging {
  import opened LruModel
  import opened ExpertDisk
  import opened Runs
  import opened Assembling
  import opened AssemblySteps
  import opened WiringSteps
  import opened Pipeline
  import opened PipelineSafety
  import opened PipelineBooks
  import opened PipelineRuns
  import opened PipelineUnique
  import opened PipelineDelivery
  import opened PipelineCap

  // ---------------------------------------------------------------- entries and sightings

  /** The entry names a layer of the model and an expert with something to read. */
  predicate Wanted(ix: Index, e: (int, int)) {
    0 <= e.0 < ix.numLayers && TotalSize(Parts(ix, KeyOf(e))) > 0
  }

  /** Some wanted entry of the batch has the key. */
  ghost predicate Listed(ix: Index, batch: seq<(int, int)>, k: ExpertKey) {
    exists i :: 0 <= i < |batch| && Wanted(ix, batch[i]) && KeyOf(batch[i]) == k
  }

  /** The key is resident or in flight. */
  predicate Present(s: Sys, k: ExpertKey) {
    k in s.lru.table || k in s.inFlight
  }

  /** The key is present in some state of the run. */
  ghost predicate Seen(ix: Index, disk: Disk, s: Sys, steps: seq<Step>, k: ExpertKey)
    decreases |steps|
  {
    Present(s, k)
    || (steps != [] && Enabled(ix, disk, s, steps[0]) && Seen(ix, disk, Do(ix, disk, s, steps[0]), steps[1..], k))
  }

  // ---------------------------------------------------------------- steps of the staging

  /** The key is among those staged so far or those still to be looked at. */
  ghost predicate ToStage(ix: Index, s: Sys, k: ExpertKey) {
    && s.forward.Stage? && s.work.wired <= |s.work.asms|
    && (k in PrivateKeys(s.work) || Listed(ix, s.forward.todo, k))
  }

  lemma PrivateKeysSame(w: Work, v: Work)
    requires w.wired == v.wired && |w.asms| == |v.asms|
    requires forall a: nat :: a < |w.asms| ==> v.asms[a].key == w.asms[a].key
    ensures PrivateKeys(v) == PrivateKeys(w)
  {
    forall k ensures k in PrivateKeys(w) <==> k in PrivateKeys(v) {
      if k in PrivateKeys(w) {
        var a: nat :| w.wired <= a < |w.asms| && w.asms[a].key == k;
        assert v.asms[a].key == k;
      }
      if k in PrivateKeys(v) {
        var a: nat :| v.wired <= a < |v.asms| && v.asms[a].key == k;
        assert w.asms[a].key == k;
      }
    }
  }

  lemma PrivateKeysMore(w: Work, v: Work, k: ExpertKey)
    requires v.wired == w.wired <= |w.asms| && |v.asms| == |w.asms| + 1 && v.asms[..|w.asms|] == w.asms
    requires v.asms[|w.asms|].key == k
    ensures PrivateKeys(v) == PrivateKeys(w) + {k}
  {
    var n := |w.asms|;
    assert forall a: nat :: a < n ==> v.asms[a] == w.asms[a];
    forall j ensures j in PrivateKeys(v) <==> j in PrivateKeys(w) + {k} {
      if j in PrivateKeys(w) {
        var a: nat :| w.wired <= a < n && w.asms[a].key == j;
        assert v.asms[a].key == j;
      }
      if j in PrivateKeys(v) {
        var a: nat :| v.wired <= a < |v.asms| && v.asms[a].key == j;
        assert a < n ==> w.asms[a].key == j;
      }
      if j == k {
        assert v.asms[n].key == j;
      }
    }
  }

  lemma ListedSplits(ix: Index, batch: seq<(int, int)>, k: ExpertKey)
    requires batch != []
    ensures Listed(ix, batch, k) <==> (Wanted(ix, batch[0]) && KeyOf(batch[0]) == k) || Listed(ix, batch[1..], k)
  {
    hide Wanted;
    if Listed(ix, batch[1..], k) {
      var i :| 0 <= i < |batch| - 1 && Wanted(ix, batch[1..][i]) && KeyOf(batch[1..][i]) == k;
      assert batch[i + 1] == batch[1..][i];
    }
    if i :| 0 < i < |batch| && Wanted(ix, batch[i]) && KeyOf(batch[i]) == k {
      assert batch[1..][i - 1] == batch[i];
    }
  }

  lemma KeyDropped(ix: Index, s: Sys, d: Sys, k: ExpertKey)
    requires s.forward.Stage? && s.forward.todo != [] && d.forward.Stage? && d.work == s.work
    requires d.forward.todo == s.forward.todo[1..]
    requires !Wanted(ix, s.forward.todo[0]) || Present(s, KeyOf(s.forward.todo[0]))
    ensures ToStage(ix, s, k) ==> ToStage(ix, d, k) || Present(s, k)
    ensures ToStage(ix, d, k) ==> ToStage(ix, s, k)
  {
    ListedSplits(ix, s.forward.todo, k);
    hide Listed, PrivateKeys, Wanted, Present;
  }

  lemma KeyStaged(ix: Index, s: Sys, d: Sys, k: ExpertKey)
    requires s.forward.Stage? && s.forward.todo != [] && d.forward.Stage? && s.work.wired <= |s.work.asms|
    requires Wanted(ix, s.forward.todo[0]) && d.work == DoCreate(ix, s.work, KeyOf(s.forward.todo[0]))
    requires d.forward.todo == s.forward.todo[1..]
    ensures ToStage(ix, s, k) <==> ToStage(ix, d, k)
  {
    ListedSplits(ix, s.forward.todo, k);
    hide Parts, TotalSize, NonEmptyParts, Zeros;
    PrivateKeysMore(s.work, d.work, KeyOf(s.forward.todo[0]));
    hide Listed, PrivateKeys, Wanted, DoCreate;
  }

  /** One step of the staging puts a key off, finds it present, or stages it; it
      stages nothing that is not wanted. */
  lemma StageStep(ix: Index, s: Sys, k: ExpertKey)
    requires s.forward.Stage? && s.forward.todo != [] && s.work.wired <= |s.work.asms|
    ensures ToStage(ix, s, k) ==> ToStage(ix, DoStage(ix, s), k) || Present(s, k)
    ensures ToStage(ix, DoStage(ix, s), k) ==> ToStage(ix, s, k)
  {
    hide Parts, TotalSize, NonEmptyParts, DoCreate, Listed, PrivateKeys;
    var d := DoStage(ix, s);
    if d.forward.todo == s.forward.todo {
      assert d.work == s.work;
    } else if d.work == s.work && (!Wanted(ix, s.forward.todo[0]) || Present(s, KeyOf(s.forward.todo[0]))) {
      KeyDropped(ix, s, d, k);
    } else {
      KeyStaged(ix, s, d, k);
    }
  }

  lemma ScatterLeaves(s: Sys, j: nat, act: Act)
    requires Doing(s.work, j, act) && Valid(s.lru)
    ensures var t := DoScatter(s, j, act);
      && t.forward == s.forward && t.work.wired == s.work.wired && |t.work.asms| == |s.work.asms|
      && forall a: nat :: a < |s.work.asms| ==> t.work.asms[a].key == s.work.asms[a].key
  {
    hide Valid, Insert, CopySafe;
  }

  /** The other threads leave the batch and the forward thread's own assemblies alone. */
  lemma ReadersStep(ix: Index, disk: Disk, s: Sys, step: Step)
    requires s.forward.Stage? && Enabled(ix, disk, s, step) && !step.StageNext? && !step.MarkInFlight?
    ensures var t := Do(ix, disk, s, step);
      && t.forward == s.forward && t.work.wired == s.work.wired && |t.work.asms| == |s.work.asms|
      && forall a: nat :: a < |s.work.asms| ==> t.work.asms[a].key == s.work.asms[a].key
  {
    hide GoodIndex, Valid, Insert, Pin, Boost, RunReadable, CopySafe, DoScatter;
    if step.Scattering? {
      ScatterLeaves(s, step.job, step.act);
    }
  }

  lemma StepToStage(ix: Index, disk: Disk, s: Sys, step: Step, k: ExpertKey)
    requires s.forward.Stage? && s.work.wired <= |s.work.asms|
    requires Enabled(ix, disk, s, step) && !step.MarkInFlight?
    ensures var t := Do(ix, disk, s, step);
      && t.forward.Stage? && t.work.wired == s.work.wired && t.work.wired <= |t.work.asms|
      && (ToStage(ix, s, k) ==> ToStage(ix, t, k) || Present(s, k))
      && (ToStage(ix, t, k) ==> ToStage(ix, s, k))
  {
    if step.StageNext? {
      assert Do(ix, disk, s, step) == DoStage(ix, s);
      hide Parts, TotalSize, NonEmptyParts, ToStage, Do, Enabled;
      StageStep(ix, s, k);
    } else {
      hide Enabled, Do, Listed, PrivateKeys, DoStage;
      ReadersStep(ix, disk, s, step);
      PrivateKeysSame(s.work, Do(ix, disk, s, step).work);
    }
  }

  /** Until the batch is marked a key to be staged stays so or is seen, and no
      other key becomes one. */
  lemma {:induction false} RunToStage(ix: Index, disk: Disk, s: Sys, steps: seq<Step>, t: Sys, k: ExpertKey)
    requires s.forward.Stage? && s.work.wired <= |s.work.asms|
    requires Leads(ix, disk, s, steps, t) && Marks(steps) == 0
    ensures t.forward.Stage? && t.work.wired == s.work.wired && t.work.wired <= |t.work.asms|
    ensures ToStage(ix, s, k) ==> ToStage(ix, t, k) || Seen(ix, disk, s, steps, k)
    ensures ToStage(ix, t, k) ==> ToStage(ix, s, k)
    decreases |steps|
  {
    hide Enabled, Do, ToStage, Present;
    if steps != [] {
      StepToStage(ix, disk, s, steps[0], k);
      RunToStage(ix, disk, Do(ix, disk, s, steps[0]), steps[1..], t, k);
    }
  }

  // ---------------------------------------------------------------- what is there is not read again

  /** In some state of the run the key is not resident. */
  ghost predicate NotResidentOnce(ix: Index, disk: Disk, s: Sys, steps: seq<Step>, k: ExpertKey)
    decreases |steps|
  {
    || k !in s.lru.table
    || (steps != [] && Enabled(ix, disk, s, steps[0])
        && NotResidentOnce(ix, disk, Do(ix, disk, s, steps[0]), steps[1..], k))
  }

  /** In some state of the run the key is not in flight. */
  ghost predicate NotInFlightOnce(ix: Index, disk: Disk, s: Sys, steps: seq<Step>, k: ExpertKey)
    decreases |steps|
  {
    || k !in s.inFlight
    || (steps != [] && Enabled(ix, disk, s, steps[0])
        && NotInFlightOnce(ix, disk, Do(ix, disk, s, steps[0]), steps[1..], k))
  }

  /** The first key of the batch has passed the check of the in-flight set. */
  predicate Passed(s: Sys, k: ExpertKey) {
    && s.forward.Stage? && s.forward.check.InLruAgain? && s.forward.todo != []
    && s.forward.todo[0].0 >= 0 && KeyOf(s.forward.todo[0]) == k
  }

  /** A key is staged by a step that finds it not resident, after one that found it
      not in flight. */
  lemma StepStagesAbsent(ix: Index, disk: Disk, s: Sys, step: Step, k: ExpertKey)
    requires s.forward.Stage? && s.work.wired <= |s.work.asms|
    requires Enabled(ix, disk, s, step) && !step.MarkInFlight?
    ensures var t := Do(ix, disk, s, step);
      && (k in PrivateKeys(t.work) && k !in PrivateKeys(s.work) ==> k !in s.lru.table && Passed(s, k))
      && (Passed(t, k) && !Passed(s, k) ==> k !in s.inFlight)
  {
    if step.StageNext? {
      hide Parts, TotalSize, DoCreate, PrivateKeys;
      var e := s.forward.todo[0];
      if 0 <= e.0 < ix.numLayers {
        CreatedKeys(ix, s.work, KeyOf(e));
      }
    } else {
      hide Enabled, Do, PrivateKeys, DoStage;
      ReadersStep(ix, disk, s, step);
      PrivateKeysSame(s.work, Do(ix, disk, s, step).work);
    }
  }

  lemma CreatedKeys(ix: Index, w: Work, k: ExpertKey)
    requires w.wired <= |w.asms|
    ensures PrivateKeys(DoCreate(ix, w, k)) == PrivateKeys(w) + {k}
  {
    hide Parts, TotalSize, NonEmptyParts, Zeros;
    PrivateKeysMore(w, DoCreate(ix, w, k), k);
  }

  lemma {:induction false} RunStagesAbsent(ix: Index, disk: Disk, s: Sys, steps: seq<Step>, t: Sys, k: ExpertKey)
    requires s.forward.Stage? && s.work.wired <= |s.work.asms|
    requires Leads(ix, disk, s, steps, t) && Marks(steps) == 0
    requires k !in PrivateKeys(s.work) && k in PrivateKeys(t.work)
    ensures NotResidentOnce(ix, disk, s, steps, k)
    ensures Passed(s, k) || NotInFlightOnce(ix, disk, s, steps, k)
    decreases |steps|
  {
    hide Enabled, Do, ToStage, Passed, PrivateKeys;
    if steps != [] {
      var u := Do(ix, disk, s, steps[0]);
      StepToStage(ix, disk, s, steps[0], k);
      StepStagesAbsent(ix, disk, s, steps[0], k);
      if k !in PrivateKeys(u.work) {
        RunStagesAbsent(ix, disk, u, steps[1..], t, k);
      }
    }
  }

  // ---------------------------------------------------------------- whole batches

  /** An assembly for the key from number n on. */
  ghost predicate Assembled(w: Work, n: nat, k: ExpertKey) {
    exists a: nat :: n <= a < |w.asms| && w.asms[a].key == k
  }

  lemma MarkedKeys(ix: Index, disk: Disk, t: Sys, runs: seq<Run>, k: ExpertKey)
    requires Enabled(ix, disk, t, MarkInFlight(runs)) && t.work.wired <= |t.work.asms|
    ensures var u := Do(ix, disk, t, MarkInFlight(runs));
      && (ToStage(ix, t, k) ==> k in u.inFlight && Assembled(u.work, t.work.wired, k))
      && (k in u.inFlight ==> k in t.inFlight || (ToStage(ix, t, k) && k in PrivateKeys(t.work)))
  {
    hide Resume, Wireable, JobsOf;
    if ToStage(ix, t, k) {
      var a: nat :| t.work.wired <= a < |t.work.asms| && t.work.asms[a].key == k;
      assert DoWire(t.work, runs).asms == t.work.asms;
    }
  }

  /** What marking a batch leaves of it: every wanted entry is in flight with an
      assembly of its own, numbered from n on, unless its key was seen since the
      batch was begun; and what has been added is wanted by the batch and was, since
      then, at some moment not resident and at some moment not in flight. */
  ghost predicate StagedWhole(ix: Index, disk: Disk, s: Sys, steps: seq<Step>, t: Sys, u: Sys, batch: seq<(int, int)>,
                              n: nat) {
    && (forall k :: Listed(ix, batch, k) ==>
          (k in u.inFlight && Assembled(u.work, n, k)) || Seen(ix, disk, s, steps, k))
    && (forall k :: k in u.inFlight && k !in t.inFlight ==>
          Listed(ix, batch, k) && NotResidentOnce(ix, disk, s, steps, k) && NotInFlightOnce(ix, disk, s, steps, k))
  }

  lemma BatchFromStart(ix: Index, disk: Disk, s: Sys, batch: seq<(int, int)>, after: After,
                       steps: seq<Step>, t: Sys, runs: seq<Run>)
    requires s.forward == Stage(batch, InLru, after) && s.work.wired == |s.work.asms|
    requires Leads(ix, disk, s, steps, t) && Marks(steps) == 0 && Enabled(ix, disk, t, MarkInFlight(runs))
    ensures StagedWhole(ix, disk, s, steps, t, Do(ix, disk, t, MarkInFlight(runs)), batch, |s.work.asms|)
  {
    hide Enabled, Do, Leads, Listed, Assembled, Seen, NotResidentOnce, NotInFlightOnce;
    assert PrivateKeys(s.work) == {};
    var u := Do(ix, disk, t, MarkInFlight(runs));
    RunToStage(ix, disk, s, steps, t, ExpertKey(0, 0));
    forall k
      ensures Listed(ix, batch, k) ==>
        (k in u.inFlight && Assembled(u.work, |s.work.asms|, k)) || Seen(ix, disk, s, steps, k)
      ensures k in u.inFlight && k !in t.inFlight ==>
        Listed(ix, batch, k) && NotResidentOnce(ix, disk, s, steps, k) && NotInFlightOnce(ix, disk, s, steps, k)
    {
      RunToStage(ix, disk, s, steps, t, k);
      MarkedKeys(ix, disk, t, runs, k);
      if k in u.inFlight && k !in t.inFlight {
        RunStagesAbsent(ix, disk, s, steps, t, k);
      }
    }
  }

  /** prefetchAsync accepts the batch: demand always, speculation below the cap. */
  predicate Accepts(s: Sys, demand: bool) {
    demand || |s.inFlight| < MAX_PREFETCH_IN_FLIGHT
  }

  /** Before a batch nothing is staged. */
  lemma NothingStaged(ix: Index, disk: Disk, s0: Sys, before: seq<Step>, s: Sys)
    requires GoodIndex(ix, disk) && Initial(s0) && Leads(ix, disk, s0, before, s)
    ensures Safe(ix, disk, s) && Books(s) && (!s.forward.Stage? ==> s.work.wired == |s.work.asms|)
  {
    hide GoodIndex, Leads, Initial, Safe, PendingOk, QueueOk, SubmitOk, LockOk, InFlightOk;
    InitialSafe(ix, disk, s0);
    InitialBooks(s0);
    RunBooks(ix, disk, s0, before, s);
  }

  lemma StartIs(ix: Index, disk: Disk, s: Sys, batch: seq<(int, int)>, demand: bool)
    requires Enabled(ix, disk, s, StartPrefetch(batch, demand)) && Accepts(s, demand)
    ensures s.forward.Idle?
    ensures Do(ix, disk, s, StartPrefetch(batch, demand)) == s.(forward := Stage(batch, InLru, Back))
  {
  }

  /** An accepted batch is staged as a whole, in every run: by the step that marks
      it, each entry with a layer in range and something to read is in flight and
      has been given an assembly, unless its key was resident or in flight at some
      moment between the start and the mark; and nothing else has been marked. */
  lemma BatchIsStaged(ix: Index, disk: Disk, s0: Sys, before: seq<Step>, s: Sys, batch: seq<(int, int)>, demand: bool,
                      steps: seq<Step>, t: Sys, runs: seq<Run>)
    requires GoodIndex(ix, disk) && Initial(s0) && Leads(ix, disk, s0, before, s)
    requires Enabled(ix, disk, s, StartPrefetch(batch, demand)) && Accepts(s, demand)
    requires Leads(ix, disk, Do(ix, disk, s, StartPrefetch(batch, demand)), steps, t) && Marks(steps) == 0
    requires Enabled(ix, disk, t, MarkInFlight(runs))
    ensures StagedWhole(ix, disk, Do(ix, disk, s, StartPrefetch(batch, demand)), steps, t,
                        Do(ix, disk, t, MarkInFlight(runs)), batch, |s.work.asms|)
  {
    NothingStaged(ix, disk, s0, before, s);
    StartIs(ix, disk, s, batch, demand);
    hide GoodIndex, Leads, Initial, Safe, Books, Enabled, Do, StagedWhole;
    BatchFromStart(ix, disk, Do(ix, disk, s, StartPrefetch(batch, demand)), batch, Back, steps, t, runs);
  }

  /** The getter finds its key neither resident nor in flight. */
  predicate Misses(s: Sys) {
    && s.forward.Get? && s.forward.at == ProbeInFlight(true) && s.forward.g.key !in s.inFlight
  }

  lemma MissIs(ix: Index, disk: Disk, s: Sys)
    requires Misses(s) && Enabled(ix, disk, s, GetNext)
    ensures Do(ix, disk, s, GetNext)
         == s.(forward := Stage([EntryOf(s.forward.g.key)], InLru, Serve(s.forward.g)))
  {
    hide Valid, CopyTo, Insert;
  }

  /** The same for the batch of one key a getter stages for itself after a miss. */
  lemma OwnKeyIsStaged(ix: Index, disk: Disk, s0: Sys, before: seq<Step>, s: Sys, steps: seq<Step>, t: Sys,
                       runs: seq<Run>)
    requires GoodIndex(ix, disk) && Initial(s0) && Leads(ix, disk, s0, before, s)
    requires Misses(s) && Enabled(ix, disk, s, GetNext)
    requires Leads(ix, disk, Do(ix, disk, s, GetNext), steps, t) && Marks(steps) == 0
    requires Enabled(ix, disk, t, MarkInFlight(runs))
    ensures StagedWhole(ix, disk, Do(ix, disk, s, GetNext), steps, t, Do(ix, disk, t, MarkInFlight(runs)),
                        [EntryOf(s.forward.g.key)], |s.work.asms|)
  {
    NothingStaged(ix, disk, s0, before, s);
    MissIs(ix, disk, s);
    hide GoodIndex, Leads, Initial, Safe, Books, Enabled, Do, StagedWhole;
    var g := s.forward.g;
    BatchFromStart(ix, disk, Do(ix, disk, s, GetNext), [EntryOf(g.key)], Serve(g), steps, t, runs);
  }

  // ---------------------------------------------------------------- batches of new keys

  lemma NoMarkNoBatch(ix: Index, disk: Disk, s: Sys, step: Step)
    requires Enabled(ix, disk, s, step) && !s.forward.Idle?
    ensures DistinctBatch(step)
  {
    hide GoodIndex, Valid, Wireable, RunReadable, CopySafe;
  }

  lemma {:induction false} StagingStartsNothing(ix: Index, disk: Disk, s: Sys, steps: seq<Step>, t: Sys)
    requires s.forward.Stage? && s.work.wired <= |s.work.asms|
    requires Leads(ix, disk, s, steps, t) && Marks(steps) == 0
    ensures forall i :: 0 <= i < |steps| ==> DistinctBatch(steps[i])
    decreases |steps|
  {
    hide Enabled, Do, DistinctBatch, ToStage;
    if steps != [] {
      NoMarkNoBatch(ix, disk, s, steps[0]);
      StepToStage(ix, disk, s, steps[0], ExpertKey(0, 0));
      StagingStartsNothing(ix, disk, Do(ix, disk, s, steps[0]), steps[1..], t);
    }
  }

  /** A batch of different keys none of which is seen while it is staged ends with
      every wanted key in flight and exactly one unfinished assembly for each. */
  lemma NewKeysOneAssemblyEach(ix: Index, disk: Disk, s0: Sys, before: seq<Step>, s: Sys, batch: seq<(int, int)>,
                               demand: bool, steps: seq<Step>, t: Sys, runs: seq<Run>)
    requires GoodIndex(ix, disk) && Initial(s0) && Leads(ix, disk, s0, before, s)
    requires Enabled(ix, disk, s, StartPrefetch(batch, demand)) && Accepts(s, demand)
    requires Leads(ix, disk, Do(ix, disk, s, StartPrefetch(batch, demand)), steps, t) && Marks(steps) == 0
    requires Enabled(ix, disk, t, MarkInFlight(runs))
    requires KeysDistinct(batch) && forall i :: 0 <= i < |before| ==> DistinctBatch(before[i])
    requires forall k :: Listed(ix, batch, k) ==>
      !Seen(ix, disk, Do(ix, disk, s, StartPrefetch(batch, demand)), steps, k)
    ensures var u := Do(ix, disk, t, MarkInFlight(runs));
      && OneLive(u.work)
      && forall k :: Listed(ix, batch, k) ==> k in u.inFlight && LiveKey(u.work, k)
  {
    var start, mark := StartPrefetch(batch, demand), MarkInFlight(runs);
    NothingStaged(ix, disk, s0, before, s);
    StartIs(ix, disk, s, batch, demand);
    assert DistinctBatch(start) && DistinctBatch(mark);
    hide GoodIndex, Leads, Initial, Safe, Books, Enabled, Do, Listed, Seen, Assembled, DistinctBatch, OneLive, LiveKey;
    BatchIsStaged(ix, disk, s0, before, s, batch, demand, steps, t, runs);
    StagingStartsNothing(ix, disk, Do(ix, disk, s, start), steps, t);
    var all := MarkedRun(ix, disk, s0, before, s, start, steps, t, mark);
    OneAssemblyPerKey(ix, disk, s0, all, Do(ix, disk, t, mark));
  }

  /** A run, a step, a run and a step again are one run. */
  lemma MarkedRun(ix: Index, disk: Disk, s0: Sys, before: seq<Step>, s: Sys, start: Step, steps: seq<Step>, t: Sys,
                  mark: Step) returns (all: seq<Step>)
    requires Leads(ix, disk, s0, before, s) && Enabled(ix, disk, s, start)
    requires Leads(ix, disk, Do(ix, disk, s, start), steps, t) && Enabled(ix, disk, t, mark)
    ensures Leads(ix, disk, s0, all, Do(ix, disk, t, mark))
    ensures forall i :: 0 <= i < |all| ==> all[i] in before || all[i] in steps || all[i] == start || all[i] == mark
  {
    hide Leads, Enabled, Do;
    LeadsThen(ix, disk, s0, before, s, start);
    LeadsConcat(ix, disk, s0, before + [start], Do(ix, disk, s, start), steps, t);
    LeadsThen(ix, disk, s0, before + [start] + steps, t, mark);
    all := before + [start] + steps + [mark];
  }

  // ---------------------------------------------------------------- from the batch to the cache

  lemma {:induction false} AssembledStays(ix: Index, disk: Disk, s: Sys, steps: seq<Step>, t: Sys, n: nat, k: ExpertKey)
    requires GoodIndex(ix, disk) && Safe(ix, disk, s) && Books(s) && Leads(ix, disk, s, steps, t)
    requires Assembled(s.work, n, k)
    ensures Assembled(t.work, n, k)
    decreases |steps|
  {
    hide GoodIndex, Safe, Books, Enabled, Do, Assembled;
    if steps != [] {
      WiredFits(ix, disk, s);
      StepExtends(ix, disk, s, steps[0]);
      StepSafe(ix, disk, s, steps[0]);
      StepBooks(ix, disk, s, steps[0]);
      AssembledExtends(s, steps[0], Do(ix, disk, s, steps[0]).work, n, k);
      AssembledStays(ix, disk, Do(ix, disk, s, steps[0]), steps[1..], t, n, k);
    }
  }

  lemma AssembledExtends(s: Sys, step: Step, v: Work, n: nat, k: ExpertKey)
    requires Extends(s, step, v) && Assembled(s.work, n, k)
    ensures Assembled(v, n, k)
  {
    hide FailedJob, Fails;
    var a: nat :| n <= a < |s.work.asms| && s.work.asms[a].key == k;
    assert v.asms[a].key == k;
  }

  /** An assembly for the key, numbered from n on, has been handed to the cache once,
      unless one of its own reads failed. */
  ghost predicate DeliveredUnlessFailed(w: Work, n: nat, k: ExpertKey) {
    exists a: nat :: n <= a < |w.asms| && w.asms[a].key == k && w.asms[a].handovers == if LostPart(w, a) then 0 else 1
  }

  /** From the batch to the cache, over every run: once the pipeline is quiet again,
      each wanted entry of an accepted batch that was not seen while the batch was
      staged has had an assembly of its own, handed to the cache exactly once unless
      one of its reads failed. */
  lemma StagedIsDelivered(ix: Index, disk: Disk, s0: Sys, before: seq<Step>, s: Sys, batch: seq<(int, int)>,
                          demand: bool, steps: seq<Step>, t: Sys, runs: seq<Run>, more: seq<Step>, z: Sys)
    requires GoodIndex(ix, disk) && Initial(s0) && Leads(ix, disk, s0, before, s)
    requires Enabled(ix, disk, s, StartPrefetch(batch, demand)) && Accepts(s, demand)
    requires Leads(ix, disk, Do(ix, disk, s, StartPrefetch(batch, demand)), steps, t) && Marks(steps) == 0
    requires Enabled(ix, disk, t, MarkInFlight(runs)) && Leads(ix, disk, Do(ix, disk, t, MarkInFlight(runs)), more, z)
    requires z.pending == 0 && z.forward.Idle?
    ensures forall k :: Listed(ix, batch, k) ==>
      || DeliveredUnlessFailed(z.work, |s.work.asms|, k)
      || Seen(ix, disk, Do(ix, disk, s, StartPrefetch(batch, demand)), steps, k)
  {
    var start, mark := StartPrefetch(batch, demand), MarkInFlight(runs);
    var u := Do(ix, disk, t, mark);
    BatchIsStaged(ix, disk, s0, before, s, batch, demand, steps, t, runs);
    hide GoodIndex, Leads, Initial, Safe, Books, Enabled, Do, Listed, Seen, Assembled, LostPart, LostKey,
         DeliveredUnlessFailed;
    var all := MarkedRun(ix, disk, s0, before, s, start, steps, t, mark);
    NothingStaged(ix, disk, s0, all, u);
    LeadsConcat(ix, disk, s0, all, u, more, z);
    QuietExactly(ix, disk, s0, all + more, z);
    forall k | Listed(ix, batch, k) && !Seen(ix, disk, Do(ix, disk, s, start), steps, k)
      ensures DeliveredUnlessFailed(z.work, |s.work.asms|, k)
    {
      AssembledStays(ix, disk, u, more, z, |s.work.asms|, k);
      QuietDelivers(z, |s.work.asms|, k);
    }
  }

  lemma QuietDelivers(z: Sys, n: nat, k: ExpertKey)
    requires Assembled(z.work, n, k)
    requires forall a: nat :: a < |z.work.asms| ==> z.work.asms[a].handovers == if LostPart(z.work, a) then 0 else 1
    ensures DeliveredUnlessFailed(z.work, n, k)
  {
    hide LostPart;
  }
}
