/** Which experts the GPU cache holds: after every run, failed stagings included,
    exactly the ones staged most recently, as many as there are device slots. */
module GpuRecency {
  import opened GpuModel
  import opened GpuSafety

  /** The experts staged more recently than k. */
  ghost function Newer(log: seq<nat>, k: nat): set<nat> {
    set j | j in log && LastStaged(log, j) > LastStaged(log, k)
  }

  /** Who is resident: with a staged expert everyone staged after it, and everyone
      ever staged unless the table is full. */
  ghost predicate KeepsRecent(g: Gpu, log: seq<nat>) {
    && (forall i, j :: j in g.slotOf && LastStaged(log, i) > LastStaged(log, j) ==> i in g.slotOf)
    && (forall i :: LastStaged(log, i) > 0 && i !in g.slotOf ==> |g.slotOf| >= |g.dev|)
  }

  // ---------------------------------------------------------------- sizes

  lemma {:induction false} InjectiveFits(m: map<nat, nat>, n: nat)
    requires Injective(m) && forall k :: k in m ==> m[k] < n
    ensures |m| <= n
    decreases n
  {
    if n == 0 {
      assert m.Keys == {};
    } else if k :| k in m && m[k] == n - 1 {
      var rest := m - {k};
      InjectiveFits(rest, n - 1);
      assert m.Keys == rest.Keys + {k};
    } else {
      InjectiveFits(m, n - 1);
    }
  }

  /** Taking a slot from its owner removes one expert at most. */
  lemma OneOwner(m: map<nat, nat>, slot: nat)
    requires Injective(m)
    ensures |m - Owners(m, slot)| + 1 >= |m|
  {
    var gone := Owners(m, slot);
    if j :| j in gone {
      assert gone == {j};
      assert m.Keys == (m - gone).Keys + {j};
    } else {
      assert m - gone == m;
    }
  }

  lemma OneMore(m: map<nat, nat>, k: nat, v: nat)
    requires k !in m
    ensures |m[k := v]| == |m| + 1
  {
    assert m[k := v].Keys == m.Keys + {k};
  }

  // ---------------------------------------------------------------- staging

  /** A touch makes a resident expert the most recent one. */
  lemma TouchRecent(g: Gpu, k: nat, log: seq<nat>)
    requires Stamped(g, log) && KeepsRecent(g, log) && k in g.slotOf
    ensures KeepsRecent(Acquire(g, k).0, log + [k])
  {
    hide Victim, LastStaged, QueueFits;
    forall i ensures LastStaged(log + [k], i) == if i == k then |log| + 1 else LastStaged(log, i) {
      LastStagedStep(log, k, i);
    }
    assert LastStaged(log, k) > 0;
  }

  /** Nobody is gone, or the one least recently staged. */
  lemma GoneIsOldest(g: Gpu, gone: nat, kept: nat, log: seq<nat>)
    requires Stamped(g, log) && gone in Owners(g.slotOf, Victim(g)) && kept in g.slotOf && kept != gone
    ensures |g.slotOf| >= |g.dev| && LastStaged(log, gone) < LastStaged(log, kept)
  {
    FullBeforeEviction(g, log);
    VictimIsOldest(g, log, gone, kept);
  }

  /** An admission leaves the table full if anyone ever staged is not resident. */
  lemma AdmitFills(g: Gpu, k: nat, log: seq<nat>, i: nat)
    requires Stamped(g, log) && Injective(g.slotOf) && KeepsRecent(g, log) && k !in g.slotOf
    requires LastStaged(log + [k], i) > 0 && i !in Acquire(g, k).0.slotOf
    ensures |Acquire(g, k).0.slotOf| >= |g.dev|
  {
    var gone := Owners(g.slotOf, Victim(g));
    LastStagedStep(log, k, i);
    OneOwner(g.slotOf, Victim(g));
    OneMore(g.slotOf - gone, k, Victim(g));
    if i in gone { FullBeforeEviction(g, log); }
    hide Stamped, Victim, LastStaged;
    if i !in gone {
      assert i !in g.slotOf;
    }
  }

  lemma AdmitRecent(g: Gpu, k: nat, log: seq<nat>)
    requires Stamped(g, log) && Injective(g.slotOf) && KeepsRecent(g, log) && k !in g.slotOf
    ensures KeepsRecent(Acquire(g, k).0, log + [k])
  {
    var a := Acquire(g, k).0;
    assert |a.dev| == |g.dev|;
    hide Stamped, Victim, LastStaged, Acquire, Owners, Injective;
    forall i, j | j in a.slotOf && LastStaged(log + [k], i) > LastStaged(log + [k], j) ensures i in a.slotOf {
      StaysRecent(g, k, log, i, j);
    }
    forall i | LastStaged(log + [k], i) > 0 && i !in a.slotOf ensures |a.slotOf| >= |a.dev| {
      AdmitFills(g, k, log, i);
    }
  }

  lemma StaysRecent(g: Gpu, k: nat, log: seq<nat>, i: nat, j: nat)
    requires Stamped(g, log) && KeepsRecent(g, log) && k !in g.slotOf
    requires j in Acquire(g, k).0.slotOf && LastStaged(log + [k], i) > LastStaged(log + [k], j)
    ensures i in Acquire(g, k).0.slotOf
  {
    LastStagedStep(log, k, i);
    LastStagedStep(log, k, j);
    hide Victim, LastStaged;
    if i != k {
      assert j in g.slotOf && i in g.slotOf;
      if i in Owners(g.slotOf, Victim(g)) {
        GoneIsOldest(g, i, j, log);
      }
    }
  }

  lemma SameTableRecent(g: Gpu, h: Gpu, log: seq<nat>)
    requires KeepsRecent(g, log) && SameTable(g, h)
    ensures KeepsRecent(h, log)
  {
  }

  lemma StageRecent(g: Gpu, k: nat, w: Block, fault: Fault, log: seq<nat>)
    requires Stamped(g, log) && Injective(g.slotOf) && KeepsRecent(g, log)
    ensures KeepsRecent(Stage(g, k, w), log + [k]) && KeepsRecent(StageFailed(g, k, w, fault), log + [k])
  {
    StageTable(g, k, w, fault);
    if k in g.slotOf { TouchRecent(g, k, log); } else { AdmitRecent(g, k, log); }
    hide Stamped, KeepsRecent, SameTable, Stage, StageFailed, Acquire;
    SameTableRecent(Acquire(g, k).0, Stage(g, k, w), log + [k]);
    SameTableRecent(Acquire(g, k).0, StageFailed(g, k, w, fault), log + [k]);
  }

  // ---------------------------------------------------------------- runs

  lemma StepRecent(g: Gpu, step: Step, weights: nat -> Block, log: seq<nat>)
    requires Stamped(g, log) && Injective(g.slotOf) && KeepsRecent(g, log) && Enabled(g, step)
    ensures KeepsRecent(Do(g, step, weights), log + Staged([step]))
  {
    hide Stamped, KeepsRecent, Stage, StageFailed, Await, Staged, SameTable;
    OneStaged(step);
    match step {
      case StageStep(k) => StageRecent(g, k, weights(k), DrainFails, log);
      case FaultStep(k, fault) => StageRecent(g, k, weights(k), fault, log);
      case FfnStep(k) =>
        assert log + [] == log;
        AwaitTable(g, k);
        SameTableRecent(g, Await(g, k), log);
      case DeviceStep =>
        assert log + [] == log;
        CopyTable(g);
        SameTableRecent(g, CopyOne(g), log);
    }
  }

  lemma CopyTable(g: Gpu)
    requires Shaped(g) && g.queue != []
    ensures SameTable(g, CopyOne(g))
  {
  }

  lemma InvInjective(g: Gpu, except: set<nat>, weights: nat -> Block)
    requires Inv(g, except, weights)
    ensures Shaped(g) && Injective(g.slotOf)
  {
  }

  lemma {:induction false} RunRecent(g: Gpu, steps: seq<Step>, except: set<nat>, weights: nat -> Block, h: Gpu,
                                     log: seq<nat>)
    requires Inv(g, except, weights) && Stamped(g, log) && KeepsRecent(g, log) && Leads(g, steps, weights, h)
    ensures KeepsRecent(h, log + Staged(steps)) && Shaped(h) && Injective(h.slotOf)
    decreases |steps|
  {
    hide Do, Enabled, Stamped, Inv, Spoilt, Staged, KeepsRecent;
    StagedStep(log, steps);
    InvInjective(g, except, weights);
    if steps != [] {
      StepInv(g, steps[0], except, weights);
      StepStamped(g, steps[0], except, weights, log);
      StepRecent(g, steps[0], weights, log);
      var after, longer := Do(g, steps[0], weights), log + Staged([steps[0]]);
      RunRecent(after, steps[1..], Spoilt(g, steps[0], except), weights, h, longer);
    }
  }

  /** Who is resident, exactly: over every run of stagings, failed stagings,
      computations and copies an expert is resident if and only if it was staged and
      fewer others were staged since than there are device slots. */
  lemma ResidentExactlyRecent(g: Gpu, steps: seq<Step>, weights: nat -> Block, h: Gpu, k: nat)
    requires Initial(g) && Leads(g, steps, weights, h)
    ensures k in h.slotOf <==> LastStaged(Staged(steps), k) > 0 && |Newer(Staged(steps), k)| < |h.dev|
  {
    var log := Staged(steps);
    assert Inv(g, {}, weights) && Stamped(g, []) && KeepsRecent(g, []);
    hide Initial, Leads, Inv, Stamped, LastStaged, KeepsRecent, Injective;
    RunRecent(g, steps, {}, weights, h, []);
    assert [] + log == log;
    StampedFromStart(g, steps, weights, h);
    InjectiveFits(h.slotOf, |h.dev|);
    RecentExactly(h, log, k);
  }

  /** Experts staged later than never have been staged. */
  lemma NewerStaged(log: seq<nat>, j: nat)
    ensures LastStaged(log, j) > 0 ==> j in log
  {
  }

  lemma ResidentIsRecent(h: Gpu, log: seq<nat>, k: nat)
    requires KeepsRecent(h, log) && |h.slotOf| <= |h.dev| && k in h.slotOf
    ensures |Newer(log, k)| < |h.dev|
  {
    hide LastStaged;
    var newer := Newer(log, k);
    assert newer + {k} <= h.slotOf.Keys;
    Smaller(newer + {k}, h.slotOf.Keys);
    assert |newer + {k}| == |newer| + 1;
  }

  lemma AbsentIsOld(h: Gpu, log: seq<nat>, k: nat)
    requires Stamped(h, log) && KeepsRecent(h, log) && k !in h.slotOf && LastStaged(log, k) > 0
    ensures |Newer(log, k)| >= |h.dev|
  {
    assert forall j :: j in h.slotOf ==> LastStaged(log, j) > 0;
    hide LastStaged, Stamped;
    forall j | j in h.slotOf ensures j in Newer(log, k) {
      NewerStaged(log, j);
      LastsDiffer(log, j, k);
    }
    Smaller(h.slotOf.Keys, Newer(log, k));
  }

  lemma RecentExactly(h: Gpu, log: seq<nat>, k: nat)
    requires Stamped(h, log) && KeepsRecent(h, log) && |h.slotOf| <= |h.dev|
    ensures k in h.slotOf <==> LastStaged(log, k) > 0 && |Newer(log, k)| < |h.dev|
  {
    assert k in h.slotOf ==> LastStaged(log, k) > 0;
    hide LastStaged, Stamped, KeepsRecent, Newer;
    if k in h.slotOf {
      ResidentIsRecent(h, log, k);
    } else if LastStaged(log, k) > 0 {
      AbsentIsOld(h, log, k);
    }
  }

  lemma LastsDiffer(log: seq<nat>, j: nat, k: nat)
    requires LastStaged(log, j) > 0 && LastStaged(log, k) > 0 && j != k
    ensures LastStaged(log, j) != LastStaged(log, k)
  {
    assert log[LastStaged(log, j) - 1] == j;
  }

  lemma Smaller<T>(a: set<T>, b: set<T>)
    requires a <= b
    ensures |a| <= |b|
  {
    assert b == a + (b - a);
  }
}
