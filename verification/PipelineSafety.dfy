/** No interleaving changes a byte: in every state of every run the cache holds
    exactly the disk bytes of each key, every getter returned what the
    synchronous load would have, and every pointer handed out still shows its
    expert until its scratch buffer is asked for again. */
module PipelineSafety {
  import opened Bytes
  import opened LruModel
  import opened ExpertDisk
  import opened Runs
  import opened Assembling
  import opened AssemblySteps
  import opened WiringSteps
  import opened Pipeline

  // ---------------------------------------------------------------- the invariant

  ghost predicate Exact(ix: Index, disk: Disk, table: map<ExpertKey, Entry>)
    requires GoodIndex(ix, disk)
  {
    forall k :: k in table ==> table[k].handle == KeyBytes(ix, disk, k)
  }

  ghost predicate CacheOk(ix: Index, disk: Disk, c: Cache)
    requires GoodIndex(ix, disk)
  {
    Valid(c) && Exact(ix, disk, c.table)
  }

  /** b stands at the front of the scratch buffer. */
  ghost predicate Shows(scratch: seq<byte>, b: seq<byte>) {
    |b| <= |scratch| && scratch[..|b|] == b
  }

  /** Every pointer handed out still shows its expert. */
  ghost predicate HeldOk(ix: Index, disk: Disk, scratch: seq<seq<byte>>, held: map<nat, ExpertKey>)
    requires GoodIndex(ix, disk)
  {
    |scratch| == 4 && forall i :: i in held ==> i < 4 && Shows(scratch[i], KeyBytes(ix, disk, held[i]))
  }

  ghost predicate GetterOk(ix: Index, scratch: seq<seq<byte>>, held: map<nat, ExpertKey>, g: Getter) {
    && |scratch| == 4 && g.scratch < 4 && g.scratch !in held
    && Loadable(ix, g.key.layer, g.key.expertId, g.scratch != 0)
    && TotalSize(Parts(ix, g.key)) <= |scratch[g.scratch]|
  }

  ghost predicate PointOk(ix: Index, disk: Disk, scratch: seq<byte>, key: ExpertKey, at: Point)
    requires GoodIndex(ix, disk)
  {
    && (at.Keep? ==> at.loaded == KeyBytes(ix, disk, key))
    && (at.Keep? || at.Served? ==> Shows(scratch, KeyBytes(ix, disk, key)))
  }

  ghost predicate ForwardOk(ix: Index, disk: Disk, scratch: seq<seq<byte>>, held: map<nat, ExpertKey>, f: Forward)
    requires GoodIndex(ix, disk)
  {
    match f
    case Idle => true
    case Stage(_, _, after) => after.Serve? ==> GetterOk(ix, scratch, held, after.g)
    case Submit(_, after) => after.Serve? ==> GetterOk(ix, scratch, held, after.g)
    case Get(g, at) => GetterOk(ix, scratch, held, g) && PointOk(ix, disk, scratch[g.scratch], g.key, at)
  }

  ghost predicate AnswerOk(ix: Index, disk: Disk, a: Answer)
    requires GoodIndex(ix, disk)
  {
    a.out == SyncLoad(ix, disk, a.layer, a.expertId, a.shared, a.unmapped)
  }

  ghost predicate AnswersOk(ix: Index, disk: Disk, answers: seq<Answer>)
    requires GoodIndex(ix, disk)
  {
    forall i :: 0 <= i < |answers| ==> AnswerOk(ix, disk, answers[i])
  }

  ghost predicate Safe(ix: Index, disk: Disk, s: Sys)
    requires GoodIndex(ix, disk)
  {
    && Inv(ix, disk, s.work) && CacheOk(ix, disk, s.lru) && HeldOk(ix, disk, s.scratch, s.held)
    && ForwardOk(ix, disk, s.scratch, s.held, s.forward) && AnswersOk(ix, disk, s.answers)
  }

  // ---------------------------------------------------------------- the cache

  lemma InsertOk(ix: Index, disk: Disk, c: Cache, k: ExpertKey)
    requires GoodIndex(ix, disk) && CacheOk(ix, disk, c)
    ensures CacheOk(ix, disk, Insert(c, k, KeyBytes(ix, disk, k)).0)
  {
    hide GoodIndex, KeyBytes, Insert, Valid;
    InsertContents(c, k, KeyBytes(ix, disk, k));
  }

  lemma CopyToOk(ix: Index, disk: Disk, c: Cache, k: ExpertKey, n: nat)
    requires GoodIndex(ix, disk) && CacheOk(ix, disk, c) && n >= TotalSize(Parts(ix, k))
    ensures CacheOk(ix, disk, CopyTo(c, k, n).0)
    ensures CopyTo(c, k, n).1 == if k in c.table then Some(KeyBytes(ix, disk, k)) else None
  {
    hide GoodIndex, Valid;
    CopyToValid(c, k, n);
    if k in c.table { assert |KeyBytes(ix, disk, k)| == TotalSize(Parts(ix, k)) by { KeyBytesSize(ix, disk, k); } }
  }

  lemma KeyBytesSize(ix: Index, disk: Disk, k: ExpertKey)
    requires GoodIndex(ix, disk)
    ensures |KeyBytes(ix, disk, k)| == TotalSize(Parts(ix, k))
  {
    PartsInBounds(ix, disk, k);
  }

  lemma PinOk(ix: Index, disk: Disk, c: Cache, k: ExpertKey)
    requires GoodIndex(ix, disk) && CacheOk(ix, disk, c)
    ensures CacheOk(ix, disk, Pin(c, k))
  {
    hide GoodIndex, KeyBytes, Valid;
    PinValid(c, k);
  }

  lemma BoostOk(ix: Index, disk: Disk, c: Cache, k: ExpertKey, cycles: int)
    requires GoodIndex(ix, disk) && CacheOk(ix, disk, c)
    ensures CacheOk(ix, disk, Boost(c, k, cycles))
  {
    hide GoodIndex, KeyBytes, Valid, Boost;
    BoostValid(c, k, cycles);
  }

  // ---------------------------------------------------------------- staging and submitting

  lemma StageSafe(ix: Index, disk: Disk, s: Sys)
    requires GoodIndex(ix, disk) && Safe(ix, disk, s) && s.forward.Stage? && s.forward.todo != []
    ensures Safe(ix, disk, DoStage(ix, s))
  {
    hide GoodIndex, Inv, CacheOk, HeldOk, GetterOk, AnswersOk, TotalSize, Parts, DoCreate;
    var entry := s.forward.todo[0];
    if 0 <= entry.0 < ix.numLayers && TotalSize(Parts(ix, KeyOf(entry))) > 0 {
      CreateKeeps(ix, disk, s.work, KeyOf(entry));
    }
  }

  lemma ResumeOk(ix: Index, disk: Disk, s: Sys, jobs: seq<Job>, job: nat, after: After)
    requires GoodIndex(ix, disk) && (after.Serve? ==> GetterOk(ix, s.scratch, s.held, after.g))
    ensures ForwardOk(ix, disk, s.scratch, s.held, Resume(jobs, job, after))
  {
    hide GoodIndex, GetterOk;
    if job >= |jobs| && after.Serve? {
      assert |s.scratch| == 4 && after.g.scratch < 4 by { GetterPlace(ix, s.scratch, s.held, after.g); }
    }
  }

  lemma GetterPlace(ix: Index, scratch: seq<seq<byte>>, held: map<nat, ExpertKey>, g: Getter)
    requires GetterOk(ix, scratch, held, g)
    ensures |scratch| == 4 && g.scratch < 4
  {
  }

  lemma MarkSafe(ix: Index, disk: Disk, s: Sys, runs: seq<Run>)
    requires GoodIndex(ix, disk) && Safe(ix, disk, s) && s.forward.Stage? && Wireable(ix, s.work, runs)
    ensures Safe(ix, disk, DoMark(s, runs))
  {
    hide GoodIndex, Inv, CacheOk, HeldOk, GetterOk, AnswersOk, Wireable, DoWire, Resume;
    WireKeeps(ix, disk, s.work, runs);
    ResumeOk(ix, disk, s, DoWire(s.work, runs).jobs, |s.work.jobs|, s.forward.after);
  }

  lemma SubmitSafe(ix: Index, disk: Disk, s: Sys)
    requires GoodIndex(ix, disk) && Safe(ix, disk, s) && s.forward.Submit? && s.forward.job < |s.work.jobs|
    requires s.work.jobs[s.forward.job].phase.Built? || s.work.jobs[s.forward.job].phase.Counted?
    ensures Safe(ix, disk, DoSubmit(s))
  {
    hide GoodIndex, Inv, CacheOk, HeldOk, GetterOk, AnswersOk, SetPhase, Resume;
    var j := s.forward.job;
    ResumeOk(ix, disk, s, s.work.jobs, j + 1, s.forward.after);
    if s.work.jobs[j].phase.Counted? {
      QuietKeeps(ix, disk, s.work, j, Queued);
    } else {
      QuietKeeps(ix, disk, s.work, j, Counted);
      QuietKeeps(ix, disk, s.work, j, Done(false));
    }
  }

  // ---------------------------------------------------------------- getters

  lemma AnswerAdded(ix: Index, disk: Disk, answers: seq<Answer>, a: Answer)
    requires GoodIndex(ix, disk) && AnswersOk(ix, disk, answers) && AnswerOk(ix, disk, a)
    ensures AnswersOk(ix, disk, answers + [a])
  {
  }

  /** Another scratch buffer is written. */
  lemma HeldElsewhere(ix: Index, disk: Disk, scratch: seq<seq<byte>>, held: map<nat, ExpertKey>, i: nat, b: seq<byte>)
    requires GoodIndex(ix, disk) && HeldOk(ix, disk, scratch, held) && i < 4
    ensures HeldOk(ix, disk, scratch[i := b], held - {i})
    ensures i !in held ==> HeldOk(ix, disk, scratch[i := b], held)
  {
    hide GoodIndex, KeyBytes, Shows;
  }

  lemma StartGetSafe(ix: Index, disk: Disk, s: Sys, layer: int, expertId: int, shared: bool)
    requires GoodIndex(ix, disk) && Safe(ix, disk, s) && s.forward.Idle? && |s.scratch| == 4
    ensures Safe(ix, disk, DoStartGet(ix, s, layer, expertId, shared))
  {
    hide GoodIndex, Inv, CacheOk, HeldOk, AnswersOk, KeyBytes, Parts, TotalSize;
    if !Loadable(ix, layer, expertId, shared) {
      AnswerAdded(ix, disk, s.answers, Answer(layer, expertId, shared, None, {}));
    } else {
      var i := ScratchOf(expertId, shared);
      HeldElsewhere(ix, disk, s.scratch, s.held, i,
        Resized(s.scratch[i], TotalSize(Parts(ix, ExpertKey(layer, expertId)))));
    }
  }

  lemma OverShows(scratch: seq<byte>, b: seq<byte>)
    requires |b| <= |scratch|
    ensures Shows(Over(scratch, b), b) && |Over(scratch, b)| == |scratch|
  {
  }

  /** Serving a getter its bytes. */
  lemma ServedOk(ix: Index, disk: Disk, scratch: seq<seq<byte>>, held: map<nat, ExpertKey>, g: Getter)
    requires GoodIndex(ix, disk) && HeldOk(ix, disk, scratch, held) && GetterOk(ix, scratch, held, g)
    ensures var b := KeyBytes(ix, disk, g.key);
      var filled := scratch[g.scratch := Over(scratch[g.scratch], b)];
      && HeldOk(ix, disk, filled, held) && GetterOk(ix, filled, held, g)
      && PointOk(ix, disk, filled[g.scratch], g.key, Keep(b))
      && (forall pin :: PointOk(ix, disk, filled[g.scratch], g.key, Served(pin)))
  {
    hide GoodIndex, HeldOk, KeyBytes, Parts, Over, Shows, TotalSize;
    var b := KeyBytes(ix, disk, g.key);
    KeyBytesSize(ix, disk, g.key);
    OverShows(scratch[g.scratch], b);
    HeldElsewhere(ix, disk, scratch, held, g.scratch, Over(scratch[g.scratch], b));
  }

  lemma CopyToSafe(ix: Index, disk: Disk, s: Sys, g: Getter, miss: Point)
    requires GoodIndex(ix, disk) && Safe(ix, disk, s) && GetterOk(ix, s.scratch, s.held, g) && Valid(s.lru)
    requires !miss.Keep? && !miss.Served?
    ensures Safe(ix, disk, DoCopyTo(s, g, miss))
  {
    CopyToOk(ix, disk, s.lru, g.key, |s.scratch[g.scratch]|);
    ServedOk(ix, disk, s.scratch, s.held, g);
    hide GoodIndex, Inv, CacheOk, HeldOk, GetterOk, AnswersOk, KeyBytes, CopyTo, Over, Valid, Shows;
  }

  lemma ProbeSafe(ix: Index, disk: Disk, s: Sys, g: Getter, f: Forward)
    requires GoodIndex(ix, disk) && Safe(ix, disk, s) && GetterOk(ix, s.scratch, s.held, g)
    requires f == Stage([EntryOf(g.key)], InLru, Serve(g)) || (f.Get? && f.g == g && !f.at.Keep? && !f.at.Served?)
    ensures Safe(ix, disk, s.(forward := f))
  {
    hide GoodIndex, Inv, CacheOk, HeldOk, AnswersOk, Shows, KeyBytes, Parts, TotalSize;
  }

  lemma KeepSafe(ix: Index, disk: Disk, s: Sys, g: Getter, b: seq<byte>)
    requires GoodIndex(ix, disk) && Safe(ix, disk, s) && s.forward == Get(g, Keep(b)) && Valid(s.lru)
    ensures var (lru, ok) := Insert(s.lru, g.key, b); Safe(ix, disk, s.(lru := lru, forward := Get(g, Served(ok))))
  {
    hide GoodIndex, Inv, Exact, HeldOk, AnswersOk, Shows, KeyBytes, Parts, TotalSize, Insert, Valid, Loadable;
    InsertOk(ix, disk, s.lru, g.key);
  }

  lemma GetSafe(ix: Index, disk: Disk, s: Sys)
    requires GoodIndex(ix, disk) && Safe(ix, disk, s) && s.forward.Get? && s.forward.g.scratch < |s.scratch|
    ensures Valid(s.lru) && Safe(ix, disk, DoGet(s))
  {
    hide GoodIndex, Inv, Exact, HeldOk, GetterOk, AnswersOk, KeyBytes, Insert, Valid, Shows, DoCopyTo, PointOk;
    var g := s.forward.g;
    match s.forward.at {
      case Try => CopyToSafe(ix, disk, s, g, ProbeLru(true));
      case Poll => CopyToSafe(ix, disk, s, g, Poll);
      case Keep(b) => KeepSafe(ix, disk, s, g, b);
      case ProbeLru(_) => ProbeSafe(ix, disk, s, g, DoGet(s).forward);
      case ProbeInFlight(_) => ProbeSafe(ix, disk, s, g, DoGet(s).forward);
      case Load =>
      case Served(_) =>
    }
  }

  lemma LoadSafe(ix: Index, disk: Disk, s: Sys, unmapped: set<Shard>)
    requires GoodIndex(ix, disk) && Safe(ix, disk, s) && s.forward.Get? && s.forward.g.scratch < |s.scratch|
    ensures Safe(ix, disk, DoLoad(ix, disk, s, unmapped))
  {
    var g := s.forward.g;
    ServedOk(ix, disk, s.scratch, s.held, g);
    assert Loadable(ix, g.key.layer, g.key.expertId, g.scratch != 0);
    hide GoodIndex, Inv, CacheOk, HeldOk, GetterOk, AnswersOk, KeyBytes, Shows, Over, AllMapped, Parts, Loadable;
    assert ExpertKey(g.key.layer, g.key.expertId) == g.key;
    if SyncLoad(ix, disk, g.key.layer, g.key.expertId, g.scratch != 0, unmapped).None? {
      AnswerAdded(ix, disk, s.answers, AnswerOf(g, None, unmapped));
    }
  }

  lemma ReturnSafe(ix: Index, disk: Disk, s: Sys)
    requires GoodIndex(ix, disk) && Safe(ix, disk, s) && s.forward.Get? && s.forward.at.Served?
      && s.forward.g.scratch < |s.scratch|
    ensures Safe(ix, disk, DoReturn(ix, s))
  {
    hide GoodIndex, Inv, CacheOk, AnswersOk, KeyBytes, Parts, TotalSize;
    var g := s.forward.g;
    KeyBytesSize(ix, disk, g.key);
    assert ExpertKey(g.key.layer, g.key.expertId) == g.key;
    AnswerAdded(ix, disk, s.answers, AnswerOf(g, Some(KeyBytes(ix, disk, g.key)), {}));
  }

  // ---------------------------------------------------------------- readers

  /** What a callback inserts are the bytes of its key. */
  lemma MoveSafe(ix: Index, disk: Disk, s: Sys, j: nat)
    requires GoodIndex(ix, disk) && Inv(ix, disk, s.work) && CacheOk(ix, disk, s.lru) && Doing(s.work, j, Move)
    ensures Inv(ix, disk, DoScatter(s, j, Move).work) && CacheOk(ix, disk, DoScatter(s, j, Move).lru)
  {
    MoveKeeps(ix, disk, s.work, j);
    hide GoodIndex, Inv, Valid, Exact, KeyBytes, DoMove, Insert;
    InsertOk(ix, disk, s.lru, s.work.asms[Cur(s.work, j).assem].key);
  }

  lemma ScatterSafe(ix: Index, disk: Disk, s: Sys, j: nat, act: Act)
    requires GoodIndex(ix, disk) && Safe(ix, disk, s) && Doing(s.work, j, act) && Valid(s.lru)
    ensures Safe(ix, disk, DoScatter(s, j, act))
  {
    hide GoodIndex, Inv, Valid, Exact, HeldOk, ForwardOk, AnswersOk, KeyBytes, Doing, DoCopy, DoDec, DoExchange,
         DoMove, DoErase, Insert;
    match act {
      case Copy => CopyKeeps(ix, disk, s.work, j);
      case Dec => DecKeeps(ix, disk, s.work, j);
      case Exchange => ExchangeKeeps(ix, disk, s.work, j);
      case Move =>
        MoveSafe(ix, disk, s, j);
      case Erase => EraseKeeps(ix, disk, s.work, j);
    }
  }

  lemma ReaderSafe(ix: Index, disk: Disk, s: Sys, j: nat, ph: Phase)
    requires GoodIndex(ix, disk) && Safe(ix, disk, s) && j < |s.work.jobs| && Quiet(disk, s.work.jobs[j], ph)
    ensures Safe(ix, disk, s.(work := SetPhase(s.work, j, ph)))
  {
    hide GoodIndex, Inv, CacheOk, HeldOk, ForwardOk, AnswersOk, Quiet, SetPhase;
    QuietKeeps(ix, disk, s.work, j, ph);
  }

  // ---------------------------------------------------------------- every step, every run

  lemma ForwardStepSafe(ix: Index, disk: Disk, s: Sys, step: Step)
    requires GoodIndex(ix, disk) && Safe(ix, disk, s) && Enabled(ix, disk, s, step)
    requires step.StartPrefetch? || step.StageNext? || step.MarkInFlight? || step.SubmitNext? || step.StartGet?
        || step.GetNext?
          || step.LoadSync? || step.Return?
    ensures Safe(ix, disk, Do(ix, disk, s, step))
  {
    match step {
      case StageNext => StageSafe(ix, disk, s);
      case MarkInFlight(runs) => MarkSafe(ix, disk, s, runs);
      case SubmitNext => SubmitSafe(ix, disk, s);
      case StartGet(layer, expertId, shared) => StartGetSafe(ix, disk, s, layer, expertId, shared);
      case GetNext => GetSafe(ix, disk, s);
      case LoadSync(unmapped) => LoadSafe(ix, disk, s, unmapped);
      case Return => ReturnSafe(ix, disk, s);
      case StartPrefetch(_, _) =>
        hide GoodIndex, Inv, CacheOk, HeldOk, AnswersOk;
    }
  }

  lemma CacheStepSafe(ix: Index, disk: Disk, s: Sys, step: Step)
    requires GoodIndex(ix, disk) && Safe(ix, disk, s) && Enabled(ix, disk, s, step)
    requires step.TimeOut? || step.PinServed? || step.PinKey? || step.BoostKey? || step.Stop?
    ensures Safe(ix, disk, Do(ix, disk, s, step))
  {
    hide GoodIndex, Inv, CacheOk, HeldOk, GetterOk, AnswersOk, Shows, KeyBytes, Pin, Boost, Valid;
    match step {
      case PinServed => PinOk(ix, disk, s.lru, s.forward.g.key);
      case PinKey(k) => PinOk(ix, disk, s.lru, k);
      case BoostKey(k, cycles) => BoostOk(ix, disk, s.lru, k, cycles);
      case TimeOut =>
      case Stop =>
    }
  }

  lemma ReaderStepSafe(ix: Index, disk: Disk, s: Sys, step: Step)
    requires GoodIndex(ix, disk) && Safe(ix, disk, s) && Enabled(ix, disk, s, step)
    requires step.Take? || step.FinishRead? || step.Scattering? || step.Complete?
    ensures Safe(ix, disk, Do(ix, disk, s, step))
  {
    match step {
      case Take => ReaderSafe(ix, disk, s, s.queue[0], Reading);
      case FinishRead(j, ok) =>
        var run := s.work.jobs[j].run;
        ReaderSafe(ix, disk, s, j, if ok then Scatter(disk[run.shard][run.start..run.end], 0, Copy)
                                   else Returned(false));
      case Scattering(j, act) => ScatterSafe(ix, disk, s, j, act);
      case Complete(j) => ReaderSafe(ix, disk, s, j, Done(s.work.jobs[j].phase.ok));
    }
    hide GoodIndex, Inv, CacheOk, HeldOk, ForwardOk, AnswersOk, SetPhase, DoScatter;
  }

  lemma StepSafe(ix: Index, disk: Disk, s: Sys, step: Step)
    requires GoodIndex(ix, disk) && Safe(ix, disk, s) && Enabled(ix, disk, s, step)
    ensures Safe(ix, disk, Do(ix, disk, s, step))
  {
    hide GoodIndex, Safe, Enabled, Do;
    if step.TimeOut? || step.PinServed? || step.PinKey? || step.BoostKey? || step.Stop? {
      CacheStepSafe(ix, disk, s, step);
    } else if step.Take? || step.FinishRead? || step.Scattering? || step.Complete? {
      ReaderStepSafe(ix, disk, s, step);
    } else {
      ForwardStepSafe(ix, disk, s, step);
    }
  }

  lemma {:induction false} RunSafe(ix: Index, disk: Disk, s: Sys, steps: seq<Step>, t: Sys)
    requires GoodIndex(ix, disk) && Safe(ix, disk, s) && Leads(ix, disk, s, steps, t)
    ensures Safe(ix, disk, t)
    decreases |steps|
  {
    hide GoodIndex, Safe, Enabled, Do;
    if steps != [] {
      StepSafe(ix, disk, s, steps[0]);
      RunSafe(ix, disk, Do(ix, disk, s, steps[0]), steps[1..], t);
    }
  }

  lemma InitialSafe(ix: Index, disk: Disk, s: Sys)
    requires GoodIndex(ix, disk) && Initial(s)
    ensures Safe(ix, disk, s)
  {
    hide GoodIndex;
    assert Inv(ix, disk, s.work);
  }

  /** The central claim: after any run, whatever the interleaving, the evictions,
      the failed reads and the refused insertions, every cache entry is the
      disk's bytes of its key, every getter has returned what the synchronous
      load returns, and every buffer handed out still shows its expert. */
  lemma SchedulingChangesNoByte(ix: Index, disk: Disk, s: Sys, steps: seq<Step>, t: Sys)
    requires GoodIndex(ix, disk) && Initial(s) && Leads(ix, disk, s, steps, t)
    ensures forall k :: k in t.lru.table ==> t.lru.table[k].handle == KeyBytes(ix, disk, k)
    ensures forall i :: 0 <= i < |t.answers| ==> AnswerOk(ix, disk, t.answers[i])
    ensures |t.scratch| == 4 && forall i :: i in t.held ==> i < 4 && Shows(t.scratch[i], KeyBytes(ix, disk, t.held[i]))
    ensures Valid(t.lru)
  {
    hide GoodIndex, Inv, Leads, Initial, KeyBytes, Shows, ForwardOk, AnswerOk, Valid;
    InitialSafe(ix, disk, s);
    RunSafe(ix, disk, s, steps, t);
  }

  /** And no copy of any run writes outside a live buffer or reads outside its
      read, nor is one skipped; a buffer handed over is complete and is handed
      over for the first time. */
  lemma CopiesAndHandoversAreSound(ix: Index, disk: Disk, s: Sys, steps: seq<Step>, t: Sys, j: nat)
    requires GoodIndex(ix, disk) && Initial(s) && Leads(ix, disk, s, steps, t)
    ensures Doing(t.work, j, Copy) ==> CopySafe(t.work, j)
    ensures Doing(t.work, j, Exchange) ==> !t.work.asms[Cur(t.work, j).assem].inserted
    ensures Doing(t.work, j, Move) ==>
      var asm := t.work.asms[Cur(t.work, j).assem];
      asm.buffer == Some(KeyBytes(ix, disk, asm.key)) && asm.handovers == 0 && asm.remaining == 0
  {
    InitialSafe(ix, disk, s);
    RunSafe(ix, disk, s, steps, t);
    assert Inv(ix, disk, t.work);
    hide GoodIndex, Safe, Initial, Leads, KeyBytes, Inv, CopySafe;
    if Doing(t.work, j, Copy) { CopyIsSafe(ix, disk, t.work, j); }
    if Doing(t.work, j, Exchange) { ExchangeIsFirst(ix, disk, t.work, j); }
    if Doing(t.work, j, Move) {
      MoveKeeps(ix, disk, t.work, j);
      MovingCounted(ix, disk, t.work, j);
    }
  }

  lemma MovingCounted(ix: Index, disk: Disk, w: Work, j: nat)
    requires Inv(ix, disk, w) && Doing(w, j, Move)
    ensures w.asms[Cur(w, j).assem].remaining == 0
  {
    assert AssemblyOk(ix, disk, w, Cur(w, j).assem);
    assert Hands(w.jobs[j], Cur(w, j).assem);
  }

  /** The counters never lie: in every state of every run remaining is the number
      of non-empty parts not yet counted down, every part counted down stands in
      the buffer byte for byte, and a buffer is gone only after all are. */
  lemma CountersAreExact(ix: Index, disk: Disk, s: Sys, steps: seq<Step>, t: Sys, a: nat)
    requires GoodIndex(ix, disk) && Initial(s) && Leads(ix, disk, s, steps, t) && a < |t.work.asms| && a < t.work.wired
    ensures t.work.asms[a].remaining == |Undecremented(t.work.jobs, a)|
    ensures t.work.asms[a].buffer.None? ==> t.work.asms[a].remaining == 0
    ensures forall j: nat, i: nat :: IsSlice(t.work.jobs, j, i) && Sl(t.work.jobs, j, i).assem == a
              && !Pending(t.work.jobs[j].phase, i) && t.work.asms[a].buffer.Some?
              ==> InPlace(disk, t.work.jobs[j].run, Sl(t.work.jobs, j, i), t.work.asms[a].buffer.value)
  {
    InitialSafe(ix, disk, s);
    RunSafe(ix, disk, s, steps, t);
    assert AssemblyOk(ix, disk, t.work, a);
    hide GoodIndex, Safe, Initial, Leads, InPlace, Undecremented, Static, PhasesOk;
    forall j: nat, i: nat | IsSlice(t.work.jobs, j, i) && !Pending(t.work.jobs[j].phase, i)
      ensures Copied(t.work.jobs[j].phase, i)
    {
    }
  }
}
