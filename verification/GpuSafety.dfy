/** What holds over every run of the GPU expert cache. */
module GpuSafety {
  import opened Bytes
  import opened GpuModel

  // ---------------------------------------------------------------- the invariant

  /** The i-th queued copy: its pinned slot is marked, recorded at this very
      position, and still holds the block of the copy's expert. */
  ghost predicate CopyOk(g: Gpu, i: nat, weights: nat -> Block)
    requires Shaped(g) && i < |g.queue|
  {
    var c := g.queue[i];
    g.slotPending[c.stage] && g.event[c.stage] == g.done + i + 1 && g.host[c.stage] == weights(c.key)
  }

  ghost predicate QueueOk(g: Gpu, weights: nat -> Block)
    requires Shaped(g)
  {
    forall i: nat :: i < |g.queue| ==> CopyOk(g, i, weights)
  }

  /** The last queued copy into a device slot. */
  ghost predicate LastFor(queue: seq<Copy>, slot: nat, i: nat) {
    i < |queue| && queue[i].slot == slot && forall j :: i < j < |queue| ==> queue[j].slot != slot
  }

  ghost predicate NoneFor(queue: seq<Copy>, slot: nat) {
    forall i :: 0 <= i < |queue| ==> queue[i].slot != slot
  }

  /** Expert k, held in slot d: either its own upload is the last one queued for
      the slot, with the wait still to come, or the slot holds its block. */
  ghost predicate OwnerOk(g: Gpu, k: nat, weights: nat -> Block)
    requires Shaped(g) && k in g.slotOf
  {
    var d := g.slotOf[k];
    && k in g.uploadPending && k in g.uploadStage
    && (NoneFor(g.queue, d) ==> g.dev[d] == weights(k))
    && (forall i: nat :: LastFor(g.queue, d, i) ==>
          g.queue[i].key == k && g.uploadPending[k] && g.done + i + 1 <= g.event[g.uploadStage[k]])
  }

  ghost predicate OwnersOk(g: Gpu, except: set<nat>, weights: nat -> Block)
    requires Shaped(g)
  {
    forall k :: k in g.slotOf && k !in except ==> OwnerOk(g, k, weights)
  }

  ghost predicate Injective(m: map<nat, nat>) {
    forall j, k :: j in m && k in m && m[j] == m[k] ==> j == k
  }

  ghost predicate EventsOk(g: Gpu) {
    forall s :: 0 <= s < |g.event| ==> g.event[s] <= g.issued
  }

  /** Uploads are remembered for resident experts only. */
  ghost predicate Tracked(g: Gpu) {
    g.uploadPending.Keys <= g.slotOf.Keys && g.uploadStage.Keys <= g.slotOf.Keys
  }

  ghost predicate Inv(g: Gpu, except: set<nat>, weights: nat -> Block) {
    && Shaped(g) && QueueOk(g, weights) && OwnersOk(g, except, weights) && EventsOk(g)
    && Injective(g.slotOf) && 0 !in g.slotOf && Tracked(g)
  }

  lemma {:induction false} SomeLast(queue: seq<Copy>, slot: nat) returns (i: nat)
    requires !NoneFor(queue, slot)
    ensures LastFor(queue, slot, i)
  {
    i := |queue| - 1;
    if queue[i].slot != slot {
      i := SomeLast(queue[..i], slot);
    }
  }

  // ---------------------------------------------------------------- the device

  lemma CopyOneLast(queue: seq<Copy>, d: nat, i: nat)
    requires queue != [] && LastFor(queue[1..], d, i)
    ensures LastFor(queue, d, i + 1) && queue[1..][i] == queue[i + 1]
  {
    assert forall j :: 0 <= j < |queue[1..]| ==> queue[1..][j] == queue[j + 1];
  }

  lemma CopyOneNone(queue: seq<Copy>, d: nat)
    requires queue != [] && NoneFor(queue[1..], d)
    ensures if queue[0].slot == d then LastFor(queue, d, 0) else NoneFor(queue, d)
  {
    assert forall j :: 0 < j < |queue| ==> queue[1..][j - 1] == queue[j];
  }

  lemma CopyOneOwner(g: Gpu, k: nat, weights: nat -> Block)
    requires Shaped(g) && QueueOk(g, weights) && g.queue != [] && k in g.slotOf && OwnerOk(g, k, weights)
    ensures Shaped(CopyOne(g)) && OwnerOk(CopyOne(g), k, weights)
  {
    var h, d := CopyOne(g), g.slotOf[k];
    assert Shaped(h);
    assert CopyOk(g, 0, weights);
    hide LastFor, NoneFor, QueueOk, QueueFits;
    forall i: nat | LastFor(h.queue, d, i)
      ensures i < |h.queue| && h.queue[i].key == k && h.uploadPending[k]
        && h.done + i + 1 <= h.event[h.uploadStage[k]]
    {
      CopyOneLast(g.queue, d, i);
    }
    if NoneFor(h.queue, d) {
      CopyOneNone(g.queue, d);
    }
  }

  lemma CopyOneInv(g: Gpu, except: set<nat>, weights: nat -> Block)
    requires Inv(g, except, weights) && g.queue != []
    ensures Inv(CopyOne(g), except, weights)
  {
    var h := CopyOne(g);
    assert Shaped(h);
    forall i: nat | i < |h.queue| ensures CopyOk(h, i, weights) {
      assert CopyOk(g, i + 1, weights);
    }
    hide OwnerOk;
    forall k | k in h.slotOf && k !in except ensures OwnerOk(h, k, weights) {
      CopyOneOwner(g, k, weights);
    }
  }

  lemma {:induction false} DrainInv(g: Gpu, n: nat, except: set<nat>, weights: nat -> Block)
    requires Inv(g, except, weights)
    ensures Inv(DrainTo(g, n), except, weights)
    decreases |g.queue|
  {
    if g.queue != [] && g.done < n {
      CopyOneInv(g, except, weights);
      DrainInv(CopyOne(g), n, except, weights);
    }
  }

  // ---------------------------------------------------------------- staging

  lemma TouchInv(g: Gpu, k: nat, except: set<nat>, weights: nat -> Block)
    requires Inv(g, except, weights) && k in g.slotOf
    ensures Inv(Acquire(g, k).0, except, weights)
  {
    var a := Acquire(g, k).0;
    assert Shaped(a);
    forall i: nat | i < |a.queue| ensures CopyOk(a, i, weights) {
      assert CopyOk(g, i, weights);
    }
    forall j | j in a.slotOf && j !in except ensures OwnerOk(a, j, weights) {
      assert OwnerOk(g, j, weights);
    }
  }

  lemma AdmitOwner(g: Gpu, k: nat, j: nat, except: set<nat>, weights: nat -> Block)
    requires Inv(g, except, weights) && k !in g.slotOf && Shaped(Acquire(g, k).0) && j in Acquire(g, k).0.slotOf
      && j != k
    requires j !in except
    ensures OwnerOk(Acquire(g, k).0, j, weights)
  {
    hide Victim, QueueOk, EventsOk;
    var a := Acquire(g, k).0;
    assert j in g.slotOf && j !in Owners(g.slotOf, a.slotOf[k]);
    assert OwnerOk(g, j, weights);
    assert a.queue == g.queue && a.slotOf[j] == g.slotOf[j];
  }

  /** Admission takes the slot from its owner; only the new expert's block is still missing. */
  lemma AdmitInv(g: Gpu, k: nat, except: set<nat>, weights: nat -> Block)
    requires Inv(g, except, weights) && k !in g.slotOf && k > 0
    ensures Inv(Acquire(g, k).0, except + {k}, weights)
  {
    hide Victim, OwnerOk, LastFor, NoneFor;
    var a := Acquire(g, k).0;
    AcquireShaped(g, k);
    forall i: nat | i < |a.queue| ensures CopyOk(a, i, weights) {
      assert CopyOk(g, i, weights);
    }
    forall j | j in a.slotOf && j !in except + {k} ensures OwnerOk(a, j, weights) {
      AdmitOwner(g, k, j, except, weights);
    }
  }

  /** The claimed pinned slot is read by no queued copy. */
  lemma ClaimIsSafe(g: Gpu, except: set<nat>, weights: nat -> Block)
    requires Inv(g, except, weights)
    ensures var (c, s) := Claim(g);
      && Inv(c, except, weights) && s < |g.host|
      && (forall i :: 0 <= i < |c.queue| ==> c.queue[i].stage != s)
      && c.slotOf == g.slotOf
  {
    var s := g.nextStage;
    var next := g.(nextStage := (s + 1) % |g.slotPending|);
    assert Inv(next, except, weights) by { CursorInv(g, next, except, weights); }
    if g.slotPending[s] {
      DrainInv(next, next.issued, except, weights);
      DrainShaped(next, next.issued);
      var d := DrainTo(next, next.issued);
      assert d.queue == [];
      MarksClearedInv(d, seq(|g.slotPending|, _ => false), except, weights);
    } else {
      forall i: nat | i < |g.queue| ensures g.queue[i].stage != s {
        assert CopyOk(g, i, weights);
      }
    }
  }

  lemma CursorInv(g: Gpu, h: Gpu, except: set<nat>, weights: nat -> Block)
    requires Inv(g, except, weights) && h == g.(nextStage := h.nextStage) && h.nextStage < |g.host|
    ensures Inv(h, except, weights)
  {
    assert Shaped(h);
    forall i: nat | i < |h.queue| ensures CopyOk(h, i, weights) {
      assert CopyOk(g, i, weights);
    }
    forall j | j in h.slotOf && j !in except ensures OwnerOk(h, j, weights) {
      assert OwnerOk(g, j, weights);
    }
  }

  /** With nothing queued the marks of the pinned slots do not matter. */
  lemma MarksClearedInv(g: Gpu, marks: seq<bool>, except: set<nat>, weights: nat -> Block)
    requires Inv(g, except, weights) && g.queue == [] && |marks| == |g.slotPending|
    ensures Inv(g.(slotPending := marks), except, weights)
  {
    var h := g.(slotPending := marks);
    assert Shaped(h);
    forall j | j in h.slotOf && j !in except ensures OwnerOk(h, j, weights) {
      assert OwnerOk(g, j, weights);
    }
  }

  lemma UploadOwner(g: Gpu, k: nat, s: nat, j: nat, except: set<nat>, weights: nat -> Block)
    requires Inv(g, except + {k}, weights) && k in g.slotOf && s < |g.host|
    requires forall i :: 0 <= i < |g.queue| ==> g.queue[i].stage != s
    requires j in g.slotOf && (j == k || j !in except)
    ensures Shaped(Upload(g, k, g.slotOf[k], s, weights(k)))
    ensures OwnerOk(Upload(g, k, g.slotOf[k], s, weights(k)), j, weights)
  {
    var h := Upload(g, k, g.slotOf[k], s, weights(k));
    assert Shaped(h);
    var n, d := |g.queue|, g.slotOf[j];
    if j == k {
      assert h.queue[n].slot == d;
      assert forall i: nat :: LastFor(h.queue, d, i) ==> i == n;
    } else {
      assert OwnerOk(g, j, weights) && g.slotOf[k] != d;
      forall i: nat | LastFor(h.queue, d, i)
        ensures h.queue[i].key == j && h.uploadPending[j] && h.done + i + 1 <= h.event[h.uploadStage[j]]
      {
        assert i < n && LastFor(g.queue, d, i) by { LastBefore(g.queue, h.queue[n], d, i); }
      }
      if NoneFor(h.queue, d) { assert NoneFor(g.queue, d) by { NoneBefore(g.queue, h.queue[n], d); } }
    }
  }

  lemma LastBefore(queue: seq<Copy>, c: Copy, d: nat, i: nat)
    requires c.slot != d && LastFor(queue + [c], d, i)
    ensures i < |queue| && LastFor(queue, d, i)
  {
    assert forall j :: 0 <= j < |queue| ==> (queue + [c])[j] == queue[j];
  }

  lemma NoneBefore(queue: seq<Copy>, c: Copy, d: nat)
    requires NoneFor(queue + [c], d)
    ensures NoneFor(queue, d)
  {
    assert forall j :: 0 <= j < |queue| ==> (queue + [c])[j] == queue[j];
  }

  lemma UploadInv(g: Gpu, k: nat, s: nat, except: set<nat>, weights: nat -> Block)
    requires Inv(g, except + {k}, weights) && k in g.slotOf && s < |g.host|
    requires forall i :: 0 <= i < |g.queue| ==> g.queue[i].stage != s
    ensures Inv(Upload(g, k, g.slotOf[k], s, weights(k)), except - {k}, weights)
  {
    var h := Upload(g, k, g.slotOf[k], s, weights(k));
    assert Shaped(h);
    forall i: nat | i < |h.queue| ensures CopyOk(h, i, weights) {
      if i < |g.queue| { assert CopyOk(g, i, weights); }
    }
    hide OwnerOk;
    forall j | j in h.slotOf && j !in except - {k} ensures OwnerOk(h, j, weights) {
      UploadOwner(g, k, s, j, except, weights);
    }
  }

  lemma StageInv(g: Gpu, k: nat, except: set<nat>, weights: nat -> Block)
    requires Inv(g, except, weights) && k > 0
    ensures Inv(Stage(g, k, weights(k)), if k in g.slotOf then except else except - {k}, weights)
  {
    if k in g.slotOf {
      TouchInv(g, k, except, weights);
    } else {
      AdmitInv(g, k, except, weights);
      var a := Acquire(g, k).0;
      ClaimIsSafe(a, except + {k}, weights);
      var (c, s) := Claim(a);
      hide Inv, Shaped, Victim;
      UploadInv(c, k, s, except, weights);
    }
  }

  /** A failed staging spoils at most the expert it was for. */
  lemma FaultInv(g: Gpu, k: nat, fault: Fault, except: set<nat>, weights: nat -> Block)
    requires Inv(g, except, weights) && k > 0
    ensures Inv(StageFailed(g, k, weights(k), fault), if k in g.slotOf then except else except + {k}, weights)
  {
    if k in g.slotOf {
      TouchInv(g, k, except, weights);
    } else {
      AdmitInv(g, k, except, weights);
      var a := Acquire(g, k).0;
      if fault.DrainFails? {
        CursorInv(a, StageFailed(g, k, weights(k), fault), except + {k}, weights);
      } else {
        ClaimIsSafe(a, except + {k}, weights);
        var (c, s) := Claim(a);
        hide Inv, Shaped, Victim, Acquire, Claim;
        FilledInv(c, s, weights(k), except + {k}, weights);
      }
    }
  }

  /** Filling a pinned slot that no queued copy reads. */
  lemma FilledInv(g: Gpu, s: nat, w: Block, except: set<nat>, weights: nat -> Block)
    requires Inv(g, except, weights) && s < |g.host|
    requires forall i :: 0 <= i < |g.queue| ==> g.queue[i].stage != s
    ensures Inv(g.(host := g.host[s := w]), except, weights)
  {
    var h := g.(host := g.host[s := w]);
    assert Shaped(h);
    forall i: nat | i < |h.queue| ensures CopyOk(h, i, weights) {
      assert CopyOk(g, i, weights);
    }
    forall j | j in h.slotOf && j !in except ensures OwnerOk(h, j, weights) {
      assert OwnerOk(g, j, weights);
    }
  }

  // ---------------------------------------------------------------- computing

  /** After the wait no queued copy is for the slot the kernel reads, and it holds the expert's block. */
  lemma AwaitReads(g: Gpu, k: nat, except: set<nat>, weights: nat -> Block)
    requires Inv(g, except, weights) && k in g.slotOf && k !in except
    ensures NoneFor(Await(g, k).queue, g.slotOf[k]) && |Await(g, k).dev| == |g.dev|
    ensures Await(g, k).dev[g.slotOf[k]] == weights(k)
  {
    assert OwnerOk(g, k, weights);
    var slot := g.slotOf[k];
    if g.uploadPending[k] {
      var s := g.uploadStage[k];
      DrainInv(g, g.event[s], except, weights);
      DrainShaped(g, g.event[s]);
      var d := DrainTo(g, g.event[s]);
      assert OwnerOk(d, k, weights) && d.done >= g.event[s];
      if !NoneFor(d.queue, slot) {
        var i := SomeLast(d.queue, slot);
        assert false;
      }
    } else if !NoneFor(g.queue, slot) {
      var i := SomeLast(g.queue, slot);
      assert false;
    }
  }

  lemma AwaitInv(g: Gpu, k: nat, except: set<nat>, weights: nat -> Block)
    requires Inv(g, except, weights) && k in g.slotOf
    ensures Inv(Await(g, k), except, weights)
  {
    if k in g.uploadPending && g.uploadPending[k] && k in g.uploadStage {
      if k !in except { AwaitReads(g, k, except, weights); }
      var s := g.uploadStage[k];
      DrainInv(g, g.event[s], except, weights);
      DrainShaped(g, g.event[s]);
      ReleaseInv(DrainTo(g, g.event[s]), k, s, except, weights);
    }
  }

  /** Releasing the pinned slot is safe: its recorded copy has been carried out. */
  lemma ReleaseInv(d: Gpu, k: nat, s: nat, except: set<nat>, weights: nat -> Block)
    requires Inv(d, except, weights) && k in d.slotOf && s < |d.host| && d.done >= d.event[s]
    requires k in except || NoneFor(d.queue, d.slotOf[k])
    ensures Inv(d.(slotPending := d.slotPending[s := false], uploadPending := d.uploadPending[k := false]), except,
        weights)
  {
    var h := d.(slotPending := d.slotPending[s := false], uploadPending := d.uploadPending[k := false]);
    assert Shaped(h);
    forall i: nat | i < |h.queue| ensures CopyOk(h, i, weights) {
      assert CopyOk(d, i, weights);
    }
    forall j | j in h.slotOf && j !in except ensures OwnerOk(h, j, weights) {
      assert OwnerOk(d, j, weights);
    }
  }

  // ---------------------------------------------------------------- runs

  lemma StepInv(g: Gpu, step: Step, except: set<nat>, weights: nat -> Block)
    requires Inv(g, except, weights) && Enabled(g, step)
    ensures Inv(Do(g, step, weights), Spoilt(g, step, except), weights)
  {
    hide Inv, Stage, StageFailed, Await, Shaped;
    match step {
      case StageStep(k) => StageInv(g, k, except, weights);
      case FaultStep(k, fault) => FaultInv(g, k, fault, except, weights);
      case FfnStep(k) => if k in g.slotOf { AwaitInv(g, k, except, weights); }
      case DeviceStep => CopyOneInv(g, except, weights);
    }
  }

  lemma {:induction false} RunInv(g: Gpu, steps: seq<Step>, except: set<nat>, weights: nat -> Block, h: Gpu)
    requires Inv(g, except, weights) && Leads(g, steps, weights, h)
    ensures Inv(h, SpoiltBy(g, steps, weights, except), weights)
    decreases |steps|
  {
    hide Inv, Do, Enabled;
    if steps != [] {
      StepInv(g, steps[0], except, weights);
      RunInv(Do(g, steps[0], weights), steps[1..], Spoilt(g, steps[0], except), weights, h);
    }
  }

  /** b can go on with the steps to c, with these experts spoilt. */
  ghost predicate Follows(b: Gpu, steps: seq<Step>, weights: nat -> Block, c: Gpu, before: set<nat>, after: set<nat>) {
    Leads(b, steps, weights, c) && SpoiltBy(b, steps, weights, before) == after
  }

  lemma FollowsNone(b: Gpu, weights: nat -> Block, before: set<nat>)
    ensures Follows(b, [], weights, b, before, before)
  {
  }

  lemma FollowsOne(b: Gpu, step: Step, weights: nat -> Block, before: set<nat>)
    requires Enabled(b, step)
    ensures Follows(b, [step], weights, Do(b, step, weights), before, Spoilt(b, step, before))
  {
    hide Do, Spoilt, Enabled;
    assert [step][1..] == [];
    var c := Do(b, step, weights);
    assert Leads(c, [], weights, c) && SpoiltBy(c, [], weights, Spoilt(b, step, before)) == Spoilt(b, step, before);
    assert Leads(b, [step], weights, c);
  }

  lemma {:induction false} FollowsConcat(b: Gpu, front: seq<Step>, weights: nat -> Block, c: Gpu, back: seq<Step>,
                                         d: Gpu, before: set<nat>, mid: set<nat>, after: set<nat>)
    requires Follows(b, front, weights, c, before, mid) && Follows(c, back, weights, d, mid, after)
    ensures Follows(b, front + back, weights, d, before, after)
    decreases |front|
  {
    hide Enabled, Do, Spoilt;
    if front == [] {
      assert front + back == back;
    } else {
      FollowsConcat(Do(b, front[0], weights), front[1..], weights, c, back, d, Spoilt(b, front[0], before), mid, after);
      assert (front + back)[1..] == front[1..] + back;
    }
  }

  ghost predicate NoFault(steps: seq<Step>) {
    forall i :: 0 <= i < |steps| ==> !steps[i].FaultStep?
  }

  /** Without device errors nothing is spoilt. */
  lemma {:induction false} NothingSpoilt(g: Gpu, steps: seq<Step>, weights: nat -> Block)
    requires NoFault(steps)
    ensures SpoiltBy(g, steps, weights, {}) == {}
    decreases |steps|
  {
    hide Do, Enabled;
    if steps != [] && Enabled(g, steps[0]) {
      assert forall i :: 0 <= i < |steps[1..]| ==> steps[1..][i] == steps[i + 1];
      assert !steps[0].FaultStep? && Spoilt(g, steps[0], {}) == {};
      NothingSpoilt(Do(g, steps[0], weights), steps[1..], weights);
    }
  }

  /** Whenever an expert's FFN computes, the device slot it reads holds that
      expert's weights, and no copy still queued is for that slot: over every
      run of stagings, computations and copies, with evictions, re-staging and
      reuse of pinned slots, and even with failed stagings as long as the
      expert's own last admission was not one of them. */
  lemma FfnReadsItsWeights(g: Gpu, steps: seq<Step>, weights: nat -> Block, h: Gpu, k: nat)
    requires Initial(g) && Leads(g, steps, weights, h) && k in h.slotOf && k !in SpoiltBy(g, steps, weights, {})
    ensures Shaped(h) && Ffn(h, k).1 == Some(weights(k))
    ensures NoneFor(Ffn(h, k).0.queue, h.slotOf[k])
  {
    assert Inv(g, {}, weights);
    hide Initial, Leads, SpoiltBy;
    RunInv(g, steps, {}, weights, h);
    AwaitReads(h, k, SpoiltBy(g, steps, weights, {}), weights);
  }

  /** Without device errors that is every resident expert. */
  lemma FfnWithoutErrors(g: Gpu, steps: seq<Step>, weights: nat -> Block, h: Gpu, k: nat)
    requires Initial(g) && Leads(g, steps, weights, h) && NoFault(steps) && k in h.slotOf
    ensures Shaped(h) && Ffn(h, k).1 == Some(weights(k))
  {
    hide Initial, Leads, SpoiltBy, Ffn;
    NothingSpoilt(g, steps, weights);
    FfnReadsItsWeights(g, steps, weights, h, k);
  }

  /** Whenever a pinned slot is about to be overwritten, no queued copy still
      has to read it; and experts never share a device slot. */
  lemma PinnedSlotsAreSafe(g: Gpu, steps: seq<Step>, weights: nat -> Block, h: Gpu, k: nat)
    requires Initial(g) && Leads(g, steps, weights, h) && k > 0 && k !in h.slotOf
    ensures Shaped(h) && Shaped(Acquire(h, k).0)
    ensures var (c, s) := Claim(Acquire(h, k).0); forall i :: 0 <= i < |c.queue| ==> c.queue[i].stage != s
    ensures Injective(h.slotOf)
  {
    assert Inv(g, {}, weights);
    hide Initial, Leads, SpoiltBy;
    RunInv(g, steps, {}, weights, h);
    var spoilt := SpoiltBy(g, steps, weights, {});
    AdmitInv(h, k, spoilt, weights);
    ClaimIsSafe(Acquire(h, k).0, spoilt + {k}, weights);
  }

  // ---------------------------------------------------------------- recency

  /** The keys staged by a run, in order. */
  function Staged(steps: seq<Step>): seq<nat> {
    if steps == [] then []
    else (if steps[0].StageStep? || steps[0].FaultStep? then [steps[0].key] else []) + Staged(steps[1..])
  }

  /** The position after the last staging of k, 0 if it was never staged. */
  function LastStaged(log: seq<nat>, k: nat): (r: nat)
    ensures r <= |log| && (r > 0 ==> log[r - 1] == k)
  {
    if log == [] then 0 else if log[|log| - 1] == k then |log| else LastStaged(log[..|log| - 1], k)
  }

  /** Use stamps are the times of the last staging; slots are in use once owned. */
  ghost predicate Stamped(g: Gpu, log: seq<nat>) {
    && Shaped(g) && g.clock == |log|
    && (forall k :: k in g.slotOf ==> g.lastUse[g.slotOf[k]] == LastStaged(log, k) > 0)
    && (forall e :: 0 <= e < |g.dev| && g.inUse[e] ==> Owners(g.slotOf, e) != {})
    && (forall k :: k in g.slotOf ==> g.inUse[g.slotOf[k]])
  }

  lemma LastStagedStep(log: seq<nat>, x: nat, k: nat)
    ensures LastStaged(log + [x], k) == if k == x then |log| + 1 else LastStaged(log, k)
  {
    assert (log + [x])[..|log|] == log;
  }

  lemma AcquireStamp(g: Gpu, k: nat, j: nat, log: seq<nat>)
    requires Stamped(g, log) && Injective(g.slotOf) && j in Acquire(g, k).0.slotOf
    ensures Acquire(g, k).0.slotOf[j] < |g.lastUse| == |Acquire(g, k).0.lastUse|
    ensures Acquire(g, k).0.lastUse[Acquire(g, k).0.slotOf[j]] == LastStaged(log + [k], j) > 0
    ensures Acquire(g, k).0.inUse[Acquire(g, k).0.slotOf[j]]
  {
    hide Victim, QueueFits;
    LastStagedStep(log, k, j);
    var a := Acquire(g, k).0;
    if j != k {
      assert j in g.slotOf && a.slotOf[j] == g.slotOf[j];
      if k !in g.slotOf { assert j !in Owners(g.slotOf, a.slotOf[k]); }
    }
  }

  lemma AcquireStamped(g: Gpu, k: nat, log: seq<nat>)
    requires Stamped(g, log) && Injective(g.slotOf)
    ensures Stamped(Acquire(g, k).0, log + [k])
  {
    var a := Acquire(g, k).0;
    AcquireShaped(g, k);
    assert a.clock == |log| + 1;
    hide Victim, Acquire, Owners, QueueFits, LastStaged;
    forall j | j in a.slotOf ensures a.lastUse[a.slotOf[j]] == LastStaged(log + [k], j) > 0 && a.inUse[a.slotOf[j]] {
      AcquireStamp(g, k, j, log);
    }
    forall e | 0 <= e < |a.dev| && a.inUse[e] ensures Owners(a.slotOf, e) != {} {
      AcquireOwners(g, k, e);
    }
  }

  lemma AcquireOwners(g: Gpu, k: nat, e: nat)
    requires Shaped(g) && e < |g.dev| && Acquire(g, k).0.inUse[e]
    requires g.inUse[e] ==> Owners(g.slotOf, e) != {}
    ensures Owners(Acquire(g, k).0.slotOf, e) != {}
  {
    hide Victim;
    var a := Acquire(g, k).0;
    if k in a.slotOf && a.slotOf[k] == e {
      assert k in Owners(a.slotOf, e);
    } else {
      var j :| j in Owners(g.slotOf, e);
      assert j in Owners(a.slotOf, e);
    }
  }

  /** Draining, claiming, uploading and waiting leave the table and the stamps alone. */
  lemma StampedElsewhere(g: Gpu, h: Gpu, log: seq<nat>)
    requires Stamped(g, log) && Shaped(h) && SameTable(g, h)
    ensures Stamped(h, log)
  {
  }

  /** Beyond the admission, staging leaves the table alone, failed or not. */
  lemma StageTable(g: Gpu, k: nat, w: Block, fault: Fault)
    requires Shaped(g)
    ensures SameTable(Acquire(g, k).0, Stage(g, k, w)) && SameTable(Acquire(g, k).0, StageFailed(g, k, w, fault))
  {
    var a := Acquire(g, k).0;
    AcquireShaped(g, k);
    ClaimShaped(a);
    ClaimTable(a);
    hide Shaped, Claim, Acquire;
  }

  ghost predicate SameTable(g: Gpu, h: Gpu) {
    |h.dev| == |g.dev| && h.slotOf == g.slotOf && h.lastUse == g.lastUse && h.inUse == g.inUse && h.clock == g.clock
  }

  lemma StageStamped(g: Gpu, k: nat, fault: Fault, except: set<nat>, weights: nat -> Block, log: seq<nat>)
    requires Inv(g, except, weights) && Stamped(g, log) && k > 0
    ensures Stamped(Stage(g, k, weights(k)), log + [k]) && Stamped(StageFailed(g, k, weights(k), fault), log + [k])
  {
    hide QueueOk, OwnersOk, EventsOk, Tracked, Stamped, Acquire, Stage, StageFailed, QueueFits;
    assert Shaped(g);
    AcquireStamped(g, k, log);
    StageInv(g, k, except, weights);
    FaultInv(g, k, fault, except, weights);
    StageTable(g, k, weights(k), fault);
    StampedElsewhere(Acquire(g, k).0, Stage(g, k, weights(k)), log + [k]);
    StampedElsewhere(Acquire(g, k).0, StageFailed(g, k, weights(k), fault), log + [k]);
  }

  lemma ClaimTable(g: Gpu)
    requires Shaped(g)
    ensures var c := Claim(g).0;
      c.slotOf == g.slotOf && c.lastUse == g.lastUse && c.inUse == g.inUse && c.clock == g.clock
  {
    var next := g.(nextStage := (g.nextStage + 1) % |g.slotPending|);
    assert Shaped(next);
    DrainShaped(next, next.issued);
  }

  lemma OneStaged(step: Step)
    ensures Staged([step]) == if step.StageStep? || step.FaultStep? then [step.key] else []
  {
    assert [step][1..] == [];
  }

  lemma StagedStep(log: seq<nat>, steps: seq<Step>)
    ensures steps == [] ==> log + Staged(steps) == log
    ensures steps != [] ==> log + Staged(steps) == log + Staged([steps[0]]) + Staged(steps[1..])
  {
    if steps != [] { OneStaged(steps[0]); }
  }

  lemma AwaitTable(g: Gpu, k: nat)
    requires Shaped(g)
    ensures SameTable(g, Await(g, k))
  {
    if k in g.uploadStage { DrainShaped(g, g.event[g.uploadStage[k]]); }
  }

  lemma CopyOneStamped(g: Gpu, log: seq<nat>)
    requires Stamped(g, log) && g.queue != []
    ensures Stamped(CopyOne(g), log)
  {
    assert Shaped(CopyOne(g));
    StampedElsewhere(g, CopyOne(g), log);
  }

  lemma StepStamped(g: Gpu, step: Step, except: set<nat>, weights: nat -> Block, log: seq<nat>)
    requires Inv(g, except, weights) && Stamped(g, log) && Enabled(g, step)
    ensures Stamped(Do(g, step, weights), log + Staged([step]))
  {
    hide QueueOk, OwnersOk, EventsOk, Tracked, Stamped, Acquire, Stage, StageFailed, QueueFits, Await, Staged;
    StepInv(g, step, except, weights);
    OneStaged(step);
    match step {
      case StageStep(k) => StageStamped(g, k, DrainFails, except, weights, log);
      case FaultStep(k, fault) => StageStamped(g, k, fault, except, weights, log);
      case FfnStep(k) =>
        assert log + [] == log;
        AwaitTable(g, k);
        StampedElsewhere(g, Ffn(g, k).0, log);
      case DeviceStep =>
        assert log + [] == log;
        CopyOneStamped(g, log);
    }
  }

  lemma {:induction false} RunStamped(g: Gpu, steps: seq<Step>, except: set<nat>, weights: nat -> Block, h: Gpu,
                                      log: seq<nat>)
    requires Inv(g, except, weights) && Stamped(g, log) && Leads(g, steps, weights, h)
    ensures Stamped(h, log + Staged(steps))
    decreases |steps|
  {
    hide Do, Enabled, Stamped, Inv, Spoilt, Staged;
    StagedStep(log, steps);
    if steps != [] {
      StepInv(g, steps[0], except, weights);
      StepStamped(g, steps[0], except, weights, log);
      var after, longer := Do(g, steps[0], weights), log + Staged([steps[0]]);
      RunStamped(after, steps[1..], Spoilt(g, steps[0], except), weights, h, longer);
    }
  }

  lemma {:induction false} EverySlotOwned(m: map<nat, nat>, n: nat)
    requires forall e: nat :: e < n ==> Owners(m, e) != {}
    ensures |m| >= n
    decreases n
  {
    if n > 0 {
      assert Owners(m, n - 1) != {};
      var k :| k in Owners(m, n - 1);
      var rest := m - {k};
      forall e: nat | e < n - 1 ensures Owners(rest, e) != {} {
        var j :| j in Owners(m, e);
        assert j in Owners(rest, e);
      }
      EverySlotOwned(rest, n - 1);
      assert m.Keys == rest.Keys + {k};
    }
  }

  lemma FullBeforeEviction(g: Gpu, log: seq<nat>)
    requires Stamped(g, log) && Owners(g.slotOf, Victim(g)) != {}
    ensures |g.slotOf| >= |g.dev|
  {
    var k :| k in Owners(g.slotOf, Victim(g));
    if |g.slotOf| < |g.dev| && FirstFree(g.inUse, 0) == |g.dev| {
      EverySlotOwned(g.slotOf, |g.dev|);
    }
  }

  /** Nobody is evicted while a device slot is free; when all are taken the
      evicted expert is the one staged longest ago. */
  lemma EvictsLeastRecentlyStaged(g: Gpu, steps: seq<Step>, weights: nat -> Block, h: Gpu, gone: nat, kept: nat)
    requires Initial(g) && Leads(g, steps, weights, h) && Shaped(h)
    requires gone in Owners(h.slotOf, Victim(h)) && kept in h.slotOf && kept != gone
    ensures |h.slotOf| >= |h.dev|
    ensures LastStaged(Staged(steps), gone) < LastStaged(Staged(steps), kept)
  {
    hide Stamped, LastStaged, Initial, Leads, Shaped;
    StampedFromStart(g, steps, weights, h);
    FullBeforeEviction(h, Staged(steps));
    VictimIsOldest(h, Staged(steps), gone, kept);
  }

  lemma StampedFromStart(g: Gpu, steps: seq<Step>, weights: nat -> Block, h: Gpu)
    requires Initial(g) && Leads(g, steps, weights, h)
    ensures Stamped(h, Staged(steps))
  {
    assert Inv(g, {}, weights) && Stamped(g, []);
    hide Initial, Leads, Inv, Stamped;
    RunStamped(g, steps, {}, weights, h, []);
    assert [] + Staged(steps) == Staged(steps);
  }

  lemma VictimIsOldest(g: Gpu, log: seq<nat>, gone: nat, kept: nat)
    requires Stamped(g, log) && |g.slotOf| >= |g.dev| && gone in Owners(g.slotOf, Victim(g)) && kept in g.slotOf
      && kept != gone
    ensures LastStaged(log, gone) < LastStaged(log, kept)
  {
    hide LastStaged;
    StampsDiffer(g, log, gone, kept);
  }

  lemma StampsDiffer(g: Gpu, log: seq<nat>, j: nat, k: nat)
    requires Stamped(g, log) && j in g.slotOf && k in g.slotOf && j != k
    ensures LastStaged(log, j) != LastStaged(log, k)
  {
    assert g.lastUse[g.slotOf[j]] == LastStaged(log, j) > 0;
    assert g.lastUse[g.slotOf[k]] == LastStaged(log, k) > 0;
  }
}
