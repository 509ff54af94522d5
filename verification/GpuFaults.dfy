/** Failed stagings: when a computation is right in spite of them, exactly. */
module GpuFaults {
  import opened Bytes
  import opened GpuModel
  import opened GpuSafety

  // ---------------------------------------------------------------- a spoilt expert is not waited for

  /** No upload is remembered for a spoilt expert. */
  ghost predicate Idle(g: Gpu, spoilt: set<nat>) {
    forall k :: k in spoilt ==> k !in g.uploadPending
  }

  /** Staging remembers an upload for its own expert only, a failed one for none. */
  lemma StagePending(g: Gpu, k: nat, w: Block, fault: Fault)
    requires Shaped(g)
    ensures Stage(g, k, w).uploadPending.Keys <= g.uploadPending.Keys + (if k in g.slotOf then {} else {k})
    ensures StageFailed(g, k, w, fault).uploadPending.Keys <= g.uploadPending.Keys
  {
    var a := Acquire(g, k).0;
    AcquireShaped(g, k);
    ClaimPending(a);
    ClaimShaped(a);
    hide Shaped, Claim, Victim;
  }

  lemma ClaimPending(g: Gpu)
    requires Shaped(g)
    ensures Claim(g).0.uploadPending == g.uploadPending
  {
    var next := g.(nextStage := (g.nextStage + 1) % |g.slotPending|);
    assert Shaped(next);
    DrainShaped(next, next.issued);
  }

  lemma AwaitPending(g: Gpu, k: nat)
    requires Shaped(g)
    ensures Await(g, k).uploadPending.Keys <= g.uploadPending.Keys
  {
    if k in g.uploadStage { DrainShaped(g, g.event[g.uploadStage[k]]); }
  }

  lemma StepIdle(g: Gpu, step: Step, spoilt: set<nat>, weights: nat -> Block)
    requires Shaped(g) && Tracked(g) && Idle(g, spoilt) && Enabled(g, step)
    ensures Idle(Do(g, step, weights), Spoilt(g, step, spoilt))
  {
    hide Shaped, Stage, StageFailed, Await;
    match step {
      case StageStep(k) => StagePending(g, k, weights(k), DrainFails);
      case FaultStep(k, fault) => StagePending(g, k, weights(k), fault);
      case FfnStep(k) => AwaitPending(g, k);
      case DeviceStep => CopyPending(g);
    }
  }

  lemma CopyPending(g: Gpu)
    requires Shaped(g) && g.queue != []
    ensures CopyOne(g).uploadPending == g.uploadPending
  {
  }

  // ---------------------------------------------------------------- what a slot holds

  /** Each device slot holds the block of the expert last written to it, or what
      it held at the start. */
  ghost predicate DevOk(g: Gpu, weights: nat -> Block, init: seq<Block>) {
    && |init| == |g.dev| == |g.held|
    && forall e :: 0 <= e < |g.dev| ==> g.dev[e] == Content(g.held[e], weights, init[e])
  }

  function Content(held: Option<nat>, weights: nat -> Block, init: Block): Block {
    match held case None => init case Some(k) => weights(k)
  }

  lemma CopyOneDev(g: Gpu, except: set<nat>, weights: nat -> Block, init: seq<Block>)
    requires Inv(g, except, weights) && g.queue != [] && DevOk(g, weights, init)
    ensures DevOk(CopyOne(g), weights, init)
  {
    assert CopyOk(g, 0, weights);
  }

  lemma {:induction false} DrainDev(g: Gpu, n: nat, except: set<nat>, weights: nat -> Block, init: seq<Block>)
    requires Inv(g, except, weights) && DevOk(g, weights, init)
    ensures DevOk(DrainTo(g, n), weights, init)
    decreases |g.queue|
  {
    if g.queue != [] && g.done < n {
      CopyOneDev(g, except, weights, init);
      CopyOneInv(g, except, weights);
      DrainDev(CopyOne(g), n, except, weights, init);
    }
  }

  lemma ClaimDev(g: Gpu, except: set<nat>, weights: nat -> Block, init: seq<Block>)
    requires Inv(g, except, weights) && DevOk(g, weights, init)
    ensures DevOk(Claim(g).0, weights, init)
  {
    var next := g.(nextStage := (g.nextStage + 1) % |g.slotPending|);
    CursorInv(g, next, except, weights);
    DrainDev(next, next.issued, except, weights, init);
  }

  lemma StageDev(g: Gpu, k: nat, fault: Fault, except: set<nat>, weights: nat -> Block, init: seq<Block>)
    requires Inv(g, except, weights) && DevOk(g, weights, init) && k > 0
    ensures DevOk(Stage(g, k, weights(k)), weights, init)
    ensures DevOk(StageFailed(g, k, weights(k), fault), weights, init)
  {
    var a := Acquire(g, k).0;
    AcquireShaped(g, k);
    ClaimShaped(a);
    assert a.dev == g.dev && a.held == g.held;
    if k !in g.slotOf {
      AdmitInv(g, k, except, weights);
      ClaimDev(a, except + {k}, weights, init);
    }
    hide Shaped, Claim, Acquire, Inv, Content;
  }

  lemma StepDev(g: Gpu, step: Step, except: set<nat>, weights: nat -> Block, init: seq<Block>)
    requires Inv(g, except, weights) && DevOk(g, weights, init) && Enabled(g, step)
    ensures DevOk(Do(g, step, weights), weights, init)
  {
    match step {
      case StageStep(k) => StageDev(g, k, DrainFails, except, weights, init);
      case FaultStep(k, fault) => StageDev(g, k, fault, except, weights, init);
      case FfnStep(k) =>
        if k in g.uploadStage { DrainDev(g, g.event[g.uploadStage[k]], except, weights, init); }
      case DeviceStep => CopyOneDev(g, except, weights, init);
    }
    hide Inv, Stage, StageFailed, Content, Shaped, DrainTo;
  }

  lemma {:induction false} RunDev(g: Gpu, steps: seq<Step>, except: set<nat>, weights: nat -> Block, init: seq<Block>,
                                  h: Gpu)
    requires Inv(g, except, weights) && Idle(g, except) && DevOk(g, weights, init) && Leads(g, steps, weights, h)
    ensures Inv(h, SpoiltBy(g, steps, weights, except), weights) && DevOk(h, weights, init)
    ensures Idle(h, SpoiltBy(g, steps, weights, except))
    decreases |steps|
  {
    hide Do, Enabled, DevOk, Idle, Spoilt, QueueOk, OwnersOk, EventsOk, Injective, Shaped;
    if steps != [] {
      StepInv(g, steps[0], except, weights);
      StepDev(g, steps[0], except, weights, init);
      StepIdle(g, steps[0], except, weights);
      RunDev(Do(g, steps[0], weights), steps[1..], Spoilt(g, steps[0], except), weights, init, h);
    }
  }

  /** Over every run: a resident expert whose last admission failed is not waited
      for, and its computation reads the device slot as it stands: the block of
      whichever expert was last written there, or the initial content. */
  lemma SpoiltReadsAsIs(g: Gpu, steps: seq<Step>, weights: nat -> Block, h: Gpu, k: nat)
    requires Initial(g) && Leads(g, steps, weights, h) && k in h.slotOf && k in SpoiltBy(g, steps, weights, {})
    ensures Shaped(h) && h.slotOf[k] < |h.dev| == |h.held| == |g.dev| && Ffn(h, k) == (h, Some(h.dev[h.slotOf[k]]))
    ensures h.dev[h.slotOf[k]] == Content(h.held[h.slotOf[k]], weights, g.dev[h.slotOf[k]])
  {
    assert Inv(g, {}, weights);
    assert DevOk(g, weights, g.dev);
    hide Initial, Leads, SpoiltBy;
    RunDev(g, steps, {}, weights, g.dev, h);
  }

  // ---------------------------------------------------------------- contents do not steer

  /** The states differ in buffer contents only. */
  ghost predicate Alike(g: Gpu, h: Gpu) {
    |g.host| == |h.host| && |g.dev| == |h.dev| && h == g.(host := h.host, dev := h.dev)
  }

  lemma {:induction false} DrainAlike(g: Gpu, h: Gpu, n: nat)
    requires Alike(g, h) && QueueFits(g) && QueueFits(h)
    ensures Alike(DrainTo(g, n), DrainTo(h, n))
    decreases |g.queue|
  {
    if g.queue != [] && g.done < n {
      assert QueueFits(CopyOne(g)) && QueueFits(CopyOne(h));
      DrainAlike(CopyOne(g), CopyOne(h), n);
    }
  }

  lemma ClaimAlike(g: Gpu, h: Gpu)
    requires Shaped(g) && Shaped(h) && Alike(g, h)
    ensures Alike(Claim(g).0, Claim(h).0) && Claim(g).1 == Claim(h).1
  {
    var next := g.(nextStage := (g.nextStage + 1) % |g.slotPending|);
    var nexth := h.(nextStage := (h.nextStage + 1) % |h.slotPending|);
    DrainAlike(next, nexth, next.issued);
  }

  lemma VictimAlike(g: Gpu, h: Gpu)
    requires Shaped(g) && Shaped(h) && Alike(g, h)
    ensures Victim(g) == Victim(h)
  {
    hide Oldest, FirstFree, QueueFits;
  }

  lemma AcquireAlike(g: Gpu, h: Gpu, k: nat)
    requires Shaped(g) && Shaped(h) && Alike(g, h)
    ensures Alike(Acquire(g, k).0, Acquire(h, k).0) && Acquire(g, k).1 == Acquire(h, k).1
        && Acquire(g, k).2 == Acquire(h, k).2
  {
    hide Victim, QueueFits, Owners;
    VictimAlike(g, h);
  }

  lemma UploadAlike(g: Gpu, h: Gpu, k: nat, slot: nat, s: nat, w: Block, x: Block)
    requires Alike(g, h) && s < |g.host| && s < |g.event| && s < |g.slotPending|
    ensures Alike(Upload(g, k, slot, s, w), Upload(h, k, slot, s, x))
    ensures Alike(g.(host := g.host[s := w]), h.(host := h.host[s := x]))
  {
  }

  lemma AdmittedAlike(g: Gpu, h: Gpu, k: nat)
    requires Shaped(g) && Shaped(h) && Alike(g, h)
    ensures Shaped(Acquire(g, k).0) && Shaped(Acquire(h, k).0)
    ensures var (c, s) := Claim(Acquire(g, k).0); var (d, t) := Claim(Acquire(h, k).0);
      s == t && s < |c.host| && s < |c.event| && s < |c.slotPending| && Shaped(c) && Shaped(d) && Alike(c, d)
  {
    AcquireAlike(g, h, k);
    AcquireShaped(g, k);
    AcquireShaped(h, k);
    hide Acquire, Claim, QueueFits, Alike;
    ClaimShaped(Acquire(g, k).0);
    ClaimShaped(Acquire(h, k).0);
    ClaimAlike(Acquire(g, k).0, Acquire(h, k).0);
  }

  lemma StageAlike(g: Gpu, h: Gpu, k: nat, w: Block, x: Block)
    requires Shaped(g) && Shaped(h) && Alike(g, h)
    ensures Alike(Stage(g, k, w), Stage(h, k, x))
  {
    hide QueueFits, Claim, Acquire, Upload, Alike;
    AcquireAlike(g, h, k);
    AdmittedAlike(g, h, k);
    var (c, s) := Claim(Acquire(g, k).0);
    UploadAlike(c, Claim(Acquire(h, k).0).0, k, Acquire(g, k).1, s, w, x);
  }

  lemma FaultAlike(g: Gpu, h: Gpu, k: nat, w: Block, x: Block, fault: Fault)
    requires Shaped(g) && Shaped(h) && Alike(g, h)
    ensures Alike(StageFailed(g, k, w, fault), StageFailed(h, k, x, fault))
  {
    hide QueueFits, Claim, Acquire, Upload, Alike;
    AcquireAlike(g, h, k);
    AdmittedAlike(g, h, k);
    var (c, s) := Claim(Acquire(g, k).0);
    UploadAlike(c, Claim(Acquire(h, k).0).0, k, Acquire(g, k).1, s, w, x);
    CursorAlike(Acquire(g, k).0, Acquire(h, k).0);
  }

  lemma CursorAlike(g: Gpu, h: Gpu)
    requires Alike(g, h) && |g.slotPending| > 0 && |h.slotPending| > 0
    ensures Alike(g.(nextStage := (g.nextStage + 1) % |g.slotPending|),
        h.(nextStage := (h.nextStage + 1) % |h.slotPending|))
  {
  }

  lemma StepAlike(g: Gpu, h: Gpu, step: Step, weights: nat -> Block, others: nat -> Block)
    requires Alike(g, h) && Enabled(g, step) && Shaped(Do(g, step, weights))
    ensures Enabled(h, step) && Alike(Do(g, step, weights), Do(h, step, others))
    ensures Shaped(Do(h, step, others))
  {
    assert Shaped(h);
    match step {
      case StageStep(k) => StageAlike(g, h, k, weights(k), others(k));
      case FaultStep(k, fault) => FaultAlike(g, h, k, weights(k), others(k), fault);
      case FfnStep(k) =>
        if k in g.uploadStage { DrainAlike(g, h, g.event[g.uploadStage[k]]); }
      case DeviceStep =>
    }
    hide Stage, StageFailed, DrainTo;
    ShapedAlike(Do(g, step, weights), Do(h, step, others));
  }

  lemma ShapedAlike(g: Gpu, h: Gpu)
    requires Alike(g, h) && Shaped(g)
    ensures Shaped(h)
  {
  }

  /** Every run can be made with other weights and other contents, and it goes
      through the same tables, queues and spoilt experts. */
  lemma {:induction false} RunAlike(g: Gpu, h: Gpu, steps: seq<Step>, weights: nat -> Block, others: nat -> Block,
                                    except: set<nat>, t: Gpu) returns (u: Gpu)
    requires Alike(g, h) && Inv(g, except, weights) && Leads(g, steps, weights, t)
    ensures Leads(h, steps, others, u) && Alike(t, u)
    ensures SpoiltBy(h, steps, others, except) == SpoiltBy(g, steps, weights, except)
    decreases |steps|
  {
    hide Do, Enabled, Alike, Shaped, QueueOk, OwnersOk, EventsOk, Injective, Tracked;
    if steps == [] {
      u := h;
    } else {
      var step := steps[0];
      StepInv(g, step, except, weights);
      StepAlike(g, h, step, weights, others);
      assert Spoilt(h, step, except) == Spoilt(g, step, except) by { SpoiltAlike(g, h, step, except); }
      u := RunAlike(Do(g, step, weights), Do(h, step, others), steps[1..], weights, others, Spoilt(g, step, except), t);
    }
  }

  lemma SpoiltAlike(g: Gpu, h: Gpu, step: Step, except: set<nat>)
    requires Alike(g, h)
    ensures Spoilt(h, step, except) == Spoilt(g, step, except)
  {
  }

  lemma {:induction false} SameEnd(g: Gpu, steps: seq<Step>, weights: nat -> Block, t: Gpu, u: Gpu)
    requires Leads(g, steps, weights, t) && Leads(g, steps, weights, u)
    ensures t == u
    decreases |steps|
  {
    hide Do, Enabled;
    if steps != [] { SameEnd(Do(g, steps[0], weights), steps[1..], weights, t, u); }
  }

  // ---------------------------------------------------------------- the exact condition

  /** After the steps, from device buffers with the given contents, a computation
      on k reads k's weights. */
  ghost predicate ReadsRight(g: Gpu, steps: seq<Step>, k: nat, weights: nat -> Block, init: seq<Block>) {
    forall h :: Leads(g.(dev := init), steps, weights, h) ==>
      k in h.slotOf && Shaped(h) && Ffn(h, k).1 == Some(weights(k))
  }

  /** Whatever the weights and the initial contents. */
  ghost predicate AlwaysRight(g: Gpu, steps: seq<Step>, k: nat) {
    forall weights: nat -> Block, init: seq<Block> :: |init| == |g.dev| ==> ReadsRight(g, steps, k, weights, init)
  }

  /** The run with the given weights and contents ends like the given one. */
  lemma EndsAlike(g: Gpu, steps: seq<Step>, weights: nat -> Block, h: Gpu, others: nat -> Block,
                  init: seq<Block>) returns (u: Gpu)
    requires Initial(g) && Leads(g, steps, weights, h) && |init| == |g.dev|
    ensures Initial(g.(dev := init)) && Leads(g.(dev := init), steps, others, u) && Alike(h, u)
    ensures SpoiltBy(g.(dev := init), steps, others, {}) == SpoiltBy(g, steps, weights, {})
  {
    var g' := g.(dev := init);
    assert Inv(g, {}, weights);
    assert Initial(g') by { InitialElsewhere(g, init); }
    hide Leads, SpoiltBy, Inv, Initial;
    u := RunAlike(g, g', steps, weights, others, {}, h);
  }

  lemma InitialElsewhere(g: Gpu, init: seq<Block>)
    requires Initial(g) && |init| == |g.dev|
    ensures Initial(g.(dev := init))
  {
  }

  lemma RightUnder(g: Gpu, steps: seq<Step>, weights: nat -> Block, h: Gpu, k: nat, others: nat -> Block,
                   init: seq<Block>)
    requires Initial(g) && Leads(g, steps, weights, h) && k in h.slotOf && |init| == |g.dev|
    requires k !in SpoiltBy(g, steps, weights, {}) || HoldsOwn(h, k)
    ensures ReadsRight(g, steps, k, others, init)
  {
    hide Leads, SpoiltBy, Initial, Ffn, Shaped;
    var u := EndsAlike(g, steps, weights, h, others, init);
    var g' := g.(dev := init);
    if k in SpoiltBy(g, steps, weights, {}) {
      SpoiltReadsAsIs(g', steps, others, u, k);
    } else {
      FfnReadsItsWeights(g', steps, others, u, k);
    }
    forall t | Leads(g', steps, others, t) ensures t == u {
      SameEnd(g', steps, others, t, u);
    }
  }

  /** The last block carried into k's device slot was k's own. */
  predicate HoldsOwn(g: Gpu, k: nat) {
    k in g.slotOf && g.slotOf[k] < |g.held| && g.held[g.slotOf[k]] == Some(k)
  }

  /** Weights that tell k apart from everything else. */
  function Telling(k: nat): nat -> Block {
    j => if j == k then [1] else []
  }

  lemma WrongUnder(g: Gpu, steps: seq<Step>, weights: nat -> Block, h: Gpu, k: nat)
    requires Initial(g) && Leads(g, steps, weights, h) && k in h.slotOf
    requires k in SpoiltBy(g, steps, weights, {}) && !HoldsOwn(h, k)
    ensures !ReadsRight(g, steps, k, Telling(k), seq(|g.dev|, _ => []))
  {
    hide Leads, SpoiltBy, Initial, Ffn, Shaped;
    var init: seq<Block> := seq(|g.dev|, _ => []);
    var u := EndsAlike(g, steps, weights, h, Telling(k), init);
    SpoiltReadsAsIs(g.(dev := init), steps, Telling(k), u, k);
  }

  /** When a computation is right, exactly: after any run, failed stagings
      included, a resident expert reads its weights, for every choice of weights
      and initial contents, if and only if its last admission did not fail or the
      last block carried into its device slot happens to be its own. */
  lemma RightExactlyWhen(g: Gpu, steps: seq<Step>, weights: nat -> Block, h: Gpu, k: nat)
    requires Initial(g) && Leads(g, steps, weights, h) && k in h.slotOf
    ensures AlwaysRight(g, steps, k) <==> k !in SpoiltBy(g, steps, weights, {}) || HoldsOwn(h, k)
  {
    hide Leads, SpoiltBy, Initial, ReadsRight, HoldsOwn;
    if k !in SpoiltBy(g, steps, weights, {}) || HoldsOwn(h, k) {
      forall others: nat -> Block, init: seq<Block> | |init| == |g.dev| ensures ReadsRight(g, steps, k, others, init) {
        RightUnder(g, steps, weights, h, k, others, init);
      }
    } else {
      WrongUnder(g, steps, weights, h, k);
      var init: seq<Block> := seq(|g.dev|, _ => []);
      assert !ReadsRight(g, steps, k, Telling(k), init);
    }
  }

  // ---------------------------------------------------------------- how the fault stays hidden

  /** The expert is resident now and after every step. */
  ghost predicate StaysResident(g: Gpu, steps: seq<Step>, weights: nat -> Block, k: nat)
    decreases |steps|
  {
    k in g.slotOf
    && (steps != [] && Enabled(g, steps[0]) ==> StaysResident(Do(g, steps[0], weights), steps[1..], weights, k))
  }

  /** A resident expert that is not evicted keeps its slot, and stays spoilt or unspoilt. */
  lemma StepResident(g: Gpu, step: Step, weights: nat -> Block, k: nat, except: set<nat>)
    requires Enabled(g, step) && k in g.slotOf && k in Do(g, step, weights).slotOf
    ensures Do(g, step, weights).slotOf[k] == g.slotOf[k]
    ensures k in Spoilt(g, step, except) <==> k in except
  {
    match step {
      case StageStep(j) => StageTable(g, j, weights(j), DrainFails);
      case FaultStep(j, fault) => StageTable(g, j, weights(j), fault);
      case FfnStep(j) => AwaitTable(g, j);
      case DeviceStep =>
    }
    hide Stage, StageFailed, Await, Shaped, Victim;
  }

  lemma {:induction false} RunResident(g: Gpu, steps: seq<Step>, weights: nat -> Block, h: Gpu, k: nat,
                                       except: set<nat>)
    requires Leads(g, steps, weights, h) && StaysResident(g, steps, weights, k)
    ensures k in g.slotOf && k in h.slotOf && h.slotOf[k] == g.slotOf[k]
    ensures k in SpoiltBy(g, steps, weights, except) <==> k in except
    decreases |steps|
  {
    hide Do, Enabled, Spoilt;
    if steps != [] {
      var next := Do(g, steps[0], weights);
      assert k in next.slotOf;
      StepResident(g, steps[0], weights, k, except);
      RunResident(next, steps[1..], weights, h, k, Spoilt(g, steps[0], except));
    }
  }

  /** A failed staging leaves the expert in the table, spoilt. */
  lemma FaultResident(g: Gpu, k: nat, fault: Fault, weights: nat -> Block, except: set<nat>)
    requires Enabled(g, FaultStep(k, fault)) && k !in g.slotOf
    ensures k in Do(g, FaultStep(k, fault), weights).slotOf && k in Spoilt(g, FaultStep(k, fault), except)
  {
    StageTable(g, k, weights(k), fault);
    hide Victim, StageFailed;
  }

  /** In every run: from a failed staging on, for as long as the expert stays
      resident, it keeps its slot, staging it again uploads nothing, touches no
      buffer and reports success, and computing on it waits for nothing and reads
      the slot as it stands. */
  lemma FailureStaysHidden(g: Gpu, before: seq<Step>, weights: nat -> Block, f: Gpu, k: nat, fault: Fault,
                           after: seq<Step>, h: Gpu, w: Block)
    requires Initial(g) && Leads(g, before, weights, f) && Enabled(f, FaultStep(k, fault)) && k !in f.slotOf
    requires var s := Do(f, FaultStep(k, fault), weights);
      Leads(s, after, weights, h) && StaysResident(s, after, weights, k)
    ensures Shaped(h) && k in h.slotOf && k in Do(f, FaultStep(k, fault), weights).slotOf
    ensures h.slotOf[k] == Do(f, FaultStep(k, fault), weights).slotOf[k] < |h.dev|
    ensures !Acquire(h, k).2 && Stage(h, k, w) == h.(lastUse := Stage(h, k, w).lastUse, clock := h.clock + 1)
    ensures Ffn(h, k) == (h, Some(h.dev[h.slotOf[k]]))
  {
    var step := FaultStep(k, fault);
    var s := Do(f, step, weights);
    var spoilt := SpoiltBy(g, before, weights, {});
    var bad := Spoilt(f, step, spoilt);
    FaultResident(f, k, fault, weights, spoilt);
    hide Initial, Leads, SpoiltBy, StaysResident, Do, Enabled, Spoilt, Shaped;
    RunResident(s, after, weights, h, k, bad);
    assert Follows(g, before, weights, f, {}, spoilt);
    FollowsOne(f, step, weights, spoilt);
    FollowsConcat(g, before, weights, f, [step], s, {}, spoilt, bad);
    assert Follows(s, after, weights, h, bad, SpoiltBy(s, after, weights, bad));
    FollowsConcat(g, before + [step], weights, s, after, h, {}, bad, SpoiltBy(s, after, weights, bad));
    SpoiltReadsAsIs(g, before + [step] + after, weights, h, k);
    TouchOnly(h, k, w);
  }

  lemma TouchOnly(g: Gpu, k: nat, w: Block)
    requires Shaped(g) && k in g.slotOf
    ensures !Acquire(g, k).2 && Stage(g, k, w) == g.(lastUse := Stage(g, k, w).lastUse, clock := g.clock + 1)
  {
  }

  /** A run in which both disjuncts of the condition fail: the computation reads
      the old content of the slot. */
  lemma FailedUploadServesStale(k: nat, stale: Block, w: Block)
    requires k > 0 && stale != w
    ensures var g := Gpu([[]], [stale], [None], [], 0, 0, [0], [0], [false], [false], 0, 0, map[], map[], map[]);
      && Initial(g) && Shaped(StageFailed(g, k, w, CopyFails))
      && !Acquire(StageFailed(g, k, w, CopyFails), k).2 && Shaped(Stage(StageFailed(g, k, w, CopyFails), k, w))
      && Ffn(Stage(StageFailed(g, k, w, CopyFails), k, w), k).1 == Some(stale)
  {
    var g := Gpu([[]], [stale], [None], [], 0, 0, [0], [0], [false], [false], 0, 0, map[], map[], map[]);
    var f := StageFailed(g, k, w, CopyFails);
    assert k in f.slotOf && f.slotOf[k] == 0;
    assert Shaped(f);
    var t := Stage(f, k, w);
    assert Shaped(t) && t.dev == [stale];
  }
}
