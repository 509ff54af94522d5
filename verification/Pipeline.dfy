/** The expert streaming pipeline as a state machine: one forward thread staging
    and fetching experts, any number of reader threads completing reads in any
    order, one shared cache. A step is one access to shared state (or one
    critical section), so a run is an interleaving of all threads. */
module Pipeline {
  import opened Bytes
  import opened LruModel
  import opened ExpertDisk
  import opened Runs
  import opened Assembling
  import opened AssemblySteps
  import opened WiringSteps

  /** Speculation stops once this many keys are in flight. */
  const MAX_PREFETCH_IN_FLIGHT: nat := 40

  /** A getter call under way; scratch 0 serves routed experts, 1 to 3 the shared slots. */
  datatype Getter = Getter(key: ExpertKey, scratch: nat)

  /** What follows when prefetchAsync returns. */
  datatype After = Back | Serve(g: Getter)

  /** The three residency checks a key passes before it is staged. */
  datatype Check = InLru | InFlight | InLruAgain

  /** Where a getter stands. A probe is two checks; the first probe decides
      whether to stage, the second whether to wait. */
  datatype Point = Try | ProbeLru(first: bool) | ProbeInFlight(first: bool) | Poll | Load
    | Keep(loaded: seq<byte>) | Served(pin: bool)

  datatype Forward = Idle
    | Stage(todo: seq<(int, int)>, check: Check, after: After)
    | Submit(job: nat, after: After)
    | Get(g: Getter, at: Point)

  /** What a getter returned; unmapped are the shards its synchronous load could not map. */
  datatype Answer = Answer(layer: int, expertId: int, shared: bool, out: Option<seq<byte>>, unmapped: set<Shard>)

  /** lock is the job whose callback holds the in-flight mutex across steps;
      held maps each scratch buffer to the key whose bytes it was last returned with. */
  datatype Sys = Sys(lru: Cache, work: Work, queue: seq<nat>, inFlight: set<ExpertKey>, pending: int,
                     lock: Option<nat>, running: bool, forward: Forward,
                     scratch: seq<seq<byte>>, held: map<nat, ExpertKey>, answers: seq<Answer>)

  datatype Step =
    | StartPrefetch(batch: seq<(int, int)>, demand: bool) | StageNext | MarkInFlight(runs: seq<Run>) | SubmitNext
    | StartGet(layer: int, expertId: int, shared: bool) | GetNext | TimeOut | LoadSync(unmapped: set<Shard>)
    | PinServed | Return | PinKey(key: ExpertKey) | BoostKey(key: ExpertKey, cycles: int) | Stop
    | Take | FinishRead(job: nat, ok: bool) | Scattering(job: nat, act: Act) | Complete(job: nat)

  // ---------------------------------------------------------------- keys

  /** The key of a batch entry: the expert id is cut to 16 bits. */
  function KeyOf(entry: (int, int)): ExpertKey
    requires entry.0 >= 0
  {
    ExpertKey(entry.0, entry.1 % 0x1_0000)
  }

  function EntryOf(key: ExpertKey): (int, int) {
    (key.layer, key.expertId)
  }

  function ScratchOf(expertId: nat, shared: bool): nat {
    if !shared then 0 else if expertId == SHARED_GATE_SLOT then 1 else if expertId == SHARED_UP_SLOT then 2 else 3
  }

  function AnswerOf(g: Getter, out: Option<seq<byte>>, unmapped: set<Shard>): Answer {
    Answer(g.key.layer, g.key.expertId, g.scratch != 0, out, unmapped)
  }

  /** b copied to the front of a scratch buffer. */
  function Over(scratch: seq<byte>, b: seq<byte>): seq<byte> {
    if |b| <= |scratch| then b + scratch[|b|..] else b
  }

  function Resized(scratch: seq<byte>, n: nat): seq<byte> {
    if |scratch| < n then scratch + Zeros(n - |scratch|) else scratch
  }

  // ---------------------------------------------------------------- the forward thread stages a batch

  function Resume(jobs: seq<Job>, job: nat, after: After): Forward {
    if job < |jobs| then Submit(job, after)
    else match after
      case Back => Idle
      case Serve(g) => Get(g, ProbeLru(false))
  }

  /** prefetchAsync begins; speculation gives up while the pipe is full. */
  function DoStartPrefetch(s: Sys, batch: seq<(int, int)>, demand: bool): Sys {
    if !demand && |s.inFlight| >= MAX_PREFETCH_IN_FLIGHT then s
    else s.(forward := Stage(batch, InLru, Back))
  }

  /** One check of the first key left in the batch, or the making of its assembly. */
  function DoStage(ix: Index, s: Sys): Sys
    requires s.forward.Stage? && s.forward.todo != []
  {
    var f := s.forward;
    var dropped := s.(forward := f.(todo := f.todo[1..], check := InLru));
    if f.todo[0].0 < 0 || f.todo[0].0 >= ix.numLayers then dropped
    else
      var key := KeyOf(f.todo[0]);
      match f.check
      case InLru => if key in s.lru.table then dropped else s.(forward := f.(check := InFlight))
      case InFlight => if key in s.inFlight then dropped else s.(forward := f.(check := InLruAgain))
      case InLruAgain =>
        if key in s.lru.table || TotalSize(Parts(ix, key)) == 0 then dropped
        else dropped.(work := DoCreate(ix, s.work, key))
  }

  function PrivateKeys(w: Work): set<ExpertKey> {
    set a: nat | w.wired <= a < |w.asms| :: w.asms[a].key
  }

  /** The whole batch is marked in flight and its runs are built. */
  function DoMark(s: Sys, runs: seq<Run>): Sys
    requires s.forward.Stage?
  {
    s.(inFlight := s.inFlight + PrivateKeys(s.work), work := DoWire(s.work, runs),
       forward := Resume(DoWire(s.work, runs).jobs, |s.work.jobs|, s.forward.after))
  }

  /** submitRead of the current run: count it, then queue it; a stopped reader
      calls back at once with failure. */
  function DoSubmit(s: Sys): Sys
    requires s.forward.Submit? && s.forward.job < |s.work.jobs|
  {
    var j, next := s.forward.job, Resume(s.work.jobs, s.forward.job + 1, s.forward.after);
    if s.work.jobs[j].phase.Counted? then
      s.(work := SetPhase(s.work, j, Queued), queue := s.queue + [j], forward := next)
    else if s.running then s.(work := SetPhase(s.work, j, Counted), pending := s.pending + 1)
    else s.(work := SetPhase(s.work, j, Done(false)), forward := next)
  }

  // ---------------------------------------------------------------- the forward thread fetches an expert

  /** A getter begins: its own checks, then its scratch buffer is made large enough. */
  function DoStartGet(ix: Index, s: Sys, layer: int, expertId: int, shared: bool): Sys
    requires |s.scratch| == 4
  {
    if !Loadable(ix, layer, expertId, shared) then
      s.(answers := s.answers + [Answer(layer, expertId, shared, None, {})])
    else
      var key := ExpertKey(layer, expertId);
      var i := ScratchOf(expertId, shared);
      s.(scratch := s.scratch[i := Resized(s.scratch[i], TotalSize(Parts(ix, key)))],
         held := s.held - {i}, forward := Get(Getter(key, i), Try))
  }

  /** copyTo under the cache's lock; on a hit the getter is served. */
  function DoCopyTo(s: Sys, g: Getter, miss: Point): Sys
    requires Valid(s.lru) && g.scratch < |s.scratch|
  {
    var (lru, r) := CopyTo(s.lru, g.key, |s.scratch[g.scratch]|);
    match r
    case Some(b) => s.(lru := lru, scratch := s.scratch[g.scratch := Over(s.scratch[g.scratch], b)],
                       forward := Get(g, Served(g.scratch == 0)))
    case None => s.(lru := lru, forward := Get(g, miss))
  }

  /** One shared access of the getter. */
  function DoGet(s: Sys): Sys
    requires Valid(s.lru) && s.forward.Get? && s.forward.g.scratch < |s.scratch|
  {
    var g := s.forward.g;
    match s.forward.at
    case Try => DoCopyTo(s, g, ProbeLru(true))
    case ProbeLru(first) =>
      s.(forward := Get(g, if g.key !in s.lru.table then ProbeInFlight(first) else if first then ProbeLru(false)
                           else Poll))
    case ProbeInFlight(first) =>
      s.(forward :=
        if g.key in s.inFlight then Get(g, if first then ProbeLru(false) else Poll)
        else if first then Stage([EntryOf(g.key)], InLru, Serve(g))
        else Get(g, Load))
    case Poll => DoCopyTo(s, g, Poll)
    case Load => s
    case Keep(b) =>
      var (lru, ok) := Insert(s.lru, g.key, b);
      s.(lru := lru, forward := Get(g, Served(ok)))
    case Served(_) => s
  }

  /** The synchronous copy, or null when a shard cannot be mapped. */
  ghost function DoLoad(ix: Index, disk: Disk, s: Sys, unmapped: set<Shard>): Sys
    requires GoodIndex(ix, disk) && s.forward.Get? && s.forward.g.scratch < |s.scratch|
  {
    var g := s.forward.g;
    match SyncLoad(ix, disk, g.key.layer, g.key.expertId, g.scratch != 0, unmapped)
    case None => s.(forward := Idle, answers := s.answers + [AnswerOf(g, None, unmapped)])
    case Some(b) => s.(scratch := s.scratch[g.scratch := Over(s.scratch[g.scratch], b)], forward := Get(g, Keep(b)))
  }

  /** The getter returns the front of its scratch buffer. */
  function DoReturn(ix: Index, s: Sys): Sys
    requires s.forward.Get? && s.forward.g.scratch < |s.scratch|
  {
    var g := s.forward.g;
    var n := TotalSize(Parts(ix, g.key));
    var b := if n <= |s.scratch[g.scratch]| then s.scratch[g.scratch][..n] else s.scratch[g.scratch];
    s.(forward := Idle, held := s.held[g.scratch := g.key], answers := s.answers + [AnswerOf(g, Some(b), {})])
  }

  // ---------------------------------------------------------------- the readers

  function DoTake(s: Sys): Sys
    requires s.queue != [] && s.queue[0] < |s.work.jobs|
  {
    s.(work := SetPhase(s.work, s.queue[0], Reading), queue := s.queue[1..])
  }

  /** The read ends: all bytes of the run, or a failure. */
  ghost function DoRead(disk: Disk, s: Sys, j: nat, ok: bool): Sys
    requires j < |s.work.jobs| && (ok ==> RunReadable(disk, s.work.jobs[j].run))
  {
    var run := s.work.jobs[j].run;
    s.(work := SetPhase(s.work, j, if ok then Scatter(disk[run.shard][run.start..run.end], 0, Copy)
                                   else Returned(false)))
  }

  /** One step of the completion callback. Moving the buffer out takes the mutex
      and inserts the block into the cache; erasing the key releases it. */
  ghost function DoScatter(s: Sys, j: nat, act: Act): Sys
    requires Doing(s.work, j, act) && Valid(s.lru)
  {
    match act
    case Copy => s.(work := DoCopy(s.work, j))
    case Dec => s.(work := DoDec(s.work, j))
    case Exchange => s.(work := DoExchange(s.work, j))
    case Move =>
      var asm := s.work.asms[Cur(s.work, j).assem];
      var block := if asm.buffer.Some? then asm.buffer.value else [];
      s.(work := DoMove(s.work, j), lru := Insert(s.lru, asm.key, block).0, lock := Some(j))
    case Erase =>
      s.(work := DoErase(s.work, j), inFlight := s.inFlight - {s.work.asms[Cur(s.work, j).assem].key}, lock := None)
  }

  function DoComplete(s: Sys, j: nat): Sys
    requires j < |s.work.jobs| && s.work.jobs[j].phase.Returned?
  {
    s.(work := SetPhase(s.work, j, Done(s.work.jobs[j].phase.ok)), pending := s.pending - 1)
  }

  // ---------------------------------------------------------------- steps and runs

  /** When a step can happen. */
  ghost predicate Enabled(ix: Index, disk: Disk, s: Sys, step: Step) {
    match step
    case StartPrefetch(_, demand) => s.forward.Idle? && (!demand ==> s.lock.None?)
    case StageNext => s.forward.Stage? && s.forward.todo != [] && (s.forward.check.InFlight? ==> s.lock.None?)
    case MarkInFlight(runs) => s.forward.Stage? && s.forward.todo == [] && s.lock.None? && Wireable(ix, s.work, runs)
    case SubmitNext => s.forward.Submit? && s.forward.job < |s.work.jobs|
                       && (s.work.jobs[s.forward.job].phase.Built? || s.work.jobs[s.forward.job].phase.Counted?)
    case StartGet(_, _, _) => s.forward.Idle? && |s.scratch| == 4
    case GetNext => Valid(s.lru) && s.forward.Get? && s.forward.g.scratch < |s.scratch| && !s.forward.at.Load?
        && !s.forward.at.Served?
                    && (s.forward.at.ProbeInFlight? ==> s.lock.None?)
    case TimeOut => s.forward.Get? && s.forward.at.Poll?
    case LoadSync(_) => GoodIndex(ix, disk) && s.forward.Get? && s.forward.at.Load? && s.forward.g.scratch < |s.scratch|
    case PinServed => s.forward.Get? && s.forward.at == Served(true)
    case Return => s.forward.Get? && s.forward.at.Served? && s.forward.g.scratch < |s.scratch|
                   && (s.forward.at.pin ==> s.forward.g.scratch == 0)
    case PinKey(_) => true
    case BoostKey(_, _) => Valid(s.lru)
    case Stop => s.forward.Idle? && s.pending <= 0
    case Take => s.queue != [] && s.queue[0] < |s.work.jobs| && s.work.jobs[s.queue[0]].phase.Queued?
    case FinishRead(j, ok) => j < |s.work.jobs| && s.work.jobs[j].phase.Reading?
        && (ok ==> RunReadable(disk, s.work.jobs[j].run))
    case Scattering(j, act) => Doing(s.work, j, act) && Valid(s.lru)
                               && (act.Move? ==> s.lock.None?) && (act.Erase? ==> s.lock == Some(j))
    case Complete(j) => j < |s.work.jobs| && s.work.jobs[j].phase.Returned?
  }

  /** The state after a step. */
  ghost function Do(ix: Index, disk: Disk, s: Sys, step: Step): Sys
    requires Enabled(ix, disk, s, step)
  {
    match step
    case StartPrefetch(batch, demand) => DoStartPrefetch(s, batch, demand)
    case StageNext => DoStage(ix, s)
    case MarkInFlight(runs) => DoMark(s, runs)
    case SubmitNext => DoSubmit(s)
    case StartGet(layer, expertId, shared) => DoStartGet(ix, s, layer, expertId, shared)
    case GetNext => DoGet(s)
    case TimeOut => s.(forward := Get(s.forward.g, Load))
    case LoadSync(unmapped) => DoLoad(ix, disk, s, unmapped)
    case PinServed => s.(lru := Pin(s.lru, s.forward.g.key), forward := Get(s.forward.g, Served(false)))
    case Return => DoReturn(ix, s)
    case PinKey(k) => s.(lru := Pin(s.lru, k))
    case BoostKey(k, cycles) => s.(lru := Boost(s.lru, k, cycles))
    case Stop => s.(running := false)
    case Take => DoTake(s)
    case FinishRead(j, ok) => DoRead(disk, s, j, ok)
    case Scattering(j, act) => DoScatter(s, j, act)
    case Complete(j) => DoComplete(s, j)
  }

  /** An empty cache, nothing in flight, every scratch buffer empty. */
  ghost predicate Initial(s: Sys) {
    && s.lru == Empty(s.lru.capacity) && s.work == Work([], [], 0) && s.queue == [] && s.inFlight == {}
      && s.pending == 0
    && s.lock == None && s.forward == Idle && s.scratch == [[], [], [], []] && s.held == map[] && s.answers == []
  }

  /** The steps lead from s to t. */
  ghost predicate Leads(ix: Index, disk: Disk, s: Sys, steps: seq<Step>, t: Sys)
    decreases |steps|
  {
    if steps == [] then t == s
    else Enabled(ix, disk, s, steps[0]) && Leads(ix, disk, Do(ix, disk, s, steps[0]), steps[1..], t)
  }
}
