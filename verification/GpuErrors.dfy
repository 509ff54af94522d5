/** Computations that fail. gpuExpertFFN can return early after it has told the
    compute stream to wait for an upload and cleared the marks of the upload's
    pinned slot, without the host ever waiting. What this can damage, exactly,
    and that everything else is as without such failures. */
module GpuErrors {
  import opened Bytes
  import opened GpuModel
  import opened GpuSafety

  // ---------------------------------------------------------------- steps

  /** gate is the position of the copy stream the compute stream does not pass:
      it keeps waiting for it even when the computation that asked for it failed. */
  datatype Host = Host(g: Gpu, gate: nat)

  datatype Action = Plain(step: Step) | ComputeFails(key: nat)

  function Max(a: nat, b: nat): nat {
    if a < b then b else a
  }

  /** The wait for k's upload is still to come. */
  predicate Waits(g: Gpu, k: nat) {
    k in g.uploadPending && g.uploadPending[k] && k in g.uploadStage
  }

  ghost function GateFor(x: Host, k: nat): nat
    requires Shaped(x.g)
  {
    if Waits(x.g, k) then Max(x.gate, x.g.event[x.g.uploadStage[k]]) else x.gate
  }

  /** The marks of k's upload are cleared. */
  ghost function Cleared(g: Gpu, k: nat): Gpu
    requires Shaped(g) && Waits(g, k)
  {
    g.(slotPending := g.slotPending[g.uploadStage[k] := false], uploadPending := g.uploadPending[k := false])
  }

  /** Up to where a computation may fail: the compute stream is told to wait for
      k's upload and the marks are cleared, but the host does not wait. */
  ghost function Fail(x: Host, k: nat): Host
    requires Shaped(x.g)
  {
    if k in x.g.slotOf && Waits(x.g, k) then Host(Cleared(x.g, k), GateFor(x, k)) else x
  }

  /** A computation that succeeds: its kernel runs once the compute stream has
      passed everything it was told to wait for, and the host waits for it. */
  ghost function Compute(x: Host, k: nat): (Host, Option<Block>)
    requires Shaped(x.g)
  {
    if k !in x.g.slotOf then (x, None)
    else
      var f := Fail(x, k);
      FailShaped(x, k);
      var d := DrainTo(f.g, f.gate);
      (Host(d, f.gate), if x.g.slotOf[k] < |d.dev| then Some(d.dev[x.g.slotOf[k]]) else None)
  }

  ghost predicate Possible(x: Host, a: Action) {
    match a case Plain(step) => Enabled(x.g, step) case ComputeFails(_) => Shaped(x.g)
  }

  ghost function Act(x: Host, a: Action, weights: nat -> Block): Host
    requires Possible(x, a)
  {
    match a
    case Plain(step) => if step.FfnStep? then Compute(x, step.key).0 else Host(Do(x.g, step, weights), x.gate)
    case ComputeFails(k) => Fail(x, k)
  }

  ghost predicate Reaches(x: Host, actions: seq<Action>, weights: nat -> Block, y: Host)
    decreases |actions|
  {
    if actions == [] then y == x
    else Possible(x, actions[0]) && Reaches(Act(x, actions[0], weights), actions[1..], weights, y)
  }

  lemma FailShaped(x: Host, k: nat)
    requires Shaped(x.g)
    ensures Shaped(Fail(x, k).g)
  {
  }

  /** What makes gpuExpertFFN give up: the wait cannot be queued, or something behind it fails. */
  datatype ComputeError = WaitFails | KernelFails

  /** The fault strikes: the expert is not resident, and a drain that is to fail is needed at all. */
  predicate Strikes(g: Gpu, k: nat, fault: Option<Fault>) {
    && fault.Some? && k !in g.slotOf
    && (fault.value.DrainFails? ==> g.nextStage < |g.slotPending| && g.slotPending[g.nextStage])
  }

  // ---------------------------------------------------------------- draining

  lemma {:induction false} DrainDone(g: Gpu, n: nat)
    requires Shaped(g) && n <= g.issued
    ensures DrainTo(g, n).done == Max(g.done, n)
    decreases |g.queue|
  {
    if g.queue != [] && g.done < n {
      assert Shaped(CopyOne(g));
      DrainDone(CopyOne(g), n);
    }
  }

  lemma {:induction false} DrainTwice(g: Gpu, m: nat, n: nat)
    requires QueueFits(g)
    ensures DrainTo(DrainTo(g, m), n) == DrainTo(g, Max(m, n))
    decreases |g.queue|
  {
    if g.queue != [] && g.done < m {
      assert QueueFits(CopyOne(g));
      DrainTwice(CopyOne(g), m, n);
    }
  }

  /** The states agree on the buffers and the copy stream. */
  ghost predicate SameStream(g: Gpu, h: Gpu) {
    && h.host == g.host && h.dev == g.dev && h.held == g.held && h.queue == g.queue && h.done == g.done
  }

  /** h with as much carried out as r has. */
  function As(h: Gpu, r: Gpu): Gpu {
    h.(dev := r.dev, held := r.held, queue := r.queue, done := r.done)
  }

  /** Draining does not look at anything else. */
  lemma {:induction false} DrainFrame(g: Gpu, h: Gpu, n: nat)
    requires QueueFits(g) && SameStream(g, h)
    ensures QueueFits(h) && DrainTo(h, n) == As(h, DrainTo(g, n))
    decreases |g.queue|
  {
    if g.queue != [] && g.done < n {
      assert QueueFits(CopyOne(g)) && SameStream(CopyOne(g), CopyOne(h));
      DrainFrame(CopyOne(g), CopyOne(h), n);
    }
  }

  lemma DrainAs(g: Gpu, n: nat)
    requires Shaped(g)
    ensures Shaped(DrainTo(g, n)) && DrainTo(g, n) == As(g, DrainTo(g, n)) && |DrainTo(g, n).dev| == |g.dev|
  {
    DrainShaped(g, n);
  }

  lemma ShapedFits(g: Gpu)
    requires Shaped(g)
    ensures QueueFits(g)
  {
  }

  lemma DrainedAlready(g: Gpu)
    requires QueueFits(g)
    ensures DrainTo(g, g.done) == g
  {
  }

  lemma DrainBelow(g: Gpu, n: nat, m: nat)
    requires QueueFits(g) && n <= g.done
    ensures DrainTo(g, Max(n, m)) == DrainTo(g, m)
  {
    DrainTwice(g, n, m);
  }

  /** The cursor over the pinned slots moves on. */
  function Turned(g: Gpu): Gpu
    requires |g.slotPending| > 0
  {
    g.(nextStage := (g.nextStage + 1) % |g.slotPending|)
  }

  lemma TurnedDrained(g: Gpu, n: nat)
    requires Shaped(g) && n <= g.issued
    ensures Shaped(Turned(g)) && Shaped(DrainTo(g, n)) && DrainTo(Turned(g), n) == Turned(DrainTo(g, n))
    ensures Turned(g).issued == g.issued && Turned(g).done == g.done && Turned(DrainTo(g, n)).done == DrainTo(g, n).done
  {
    DrainAs(g, n);
    DrainFrame(g, Turned(g), n);
  }

  /** No queued copy reads pinned slot s. */
  ghost predicate Unread(queue: seq<Copy>, s: nat) {
    forall i :: 0 <= i < |queue| ==> queue[i].stage != s
  }

  /** Filling a pinned slot nobody reads may come before or after the draining. */
  lemma {:induction false} DrainFilled(g: Gpu, s: nat, w: Block, n: nat)
    requires QueueFits(g) && Unread(g.queue, s) && s < |g.host|
    ensures |DrainTo(g, n).host| == |g.host|
    ensures QueueFits(g.(host := g.host[s := w]))
    ensures DrainTo(g.(host := g.host[s := w]), n) == DrainTo(g, n).(host := DrainTo(g, n).host[s := w])
    decreases |g.queue|
  {
    if g.queue != [] && g.done < n {
      var h := CopyOne(g);
      assert QueueFits(h);
      assert Unread(h.queue, s) by { assert forall i :: 0 <= i < |h.queue| ==> h.queue[i] == g.queue[i + 1]; }
      assert CopyOne(g.(host := g.host[s := w])) == h.(host := h.host[s := w]);
      DrainFilled(h, s, w, n);
    }
  }

  /** A copy queued behind position n does not matter to the draining up to n. */
  lemma {:induction false} DrainQueued(g: Gpu, c: Copy, n: nat)
    requires QueueFits(g) && c.stage < |g.host| && c.slot < |g.dev| && n <= g.done + |g.queue|
    ensures QueueFits(g.(queue := g.queue + [c]))
    ensures DrainTo(g.(queue := g.queue + [c]), n) == DrainTo(g, n).(queue := DrainTo(g, n).queue + [c])
    decreases |g.queue|
  {
    var q := g.(queue := g.queue + [c]);
    if g.queue != [] && g.done < n {
      var h := CopyOne(g);
      assert QueueFits(h);
      assert q.queue[1..] == h.queue + [c];
      assert CopyOne(q) == h.(queue := h.queue + [c]);
      DrainQueued(h, c, n);
    }
  }

  /** What an upload does to the buffers and the stream. */
  function Queued(g: Gpu, s: nat, w: Block, c: Copy): Gpu
    requires s < |g.host|
  {
    g.(host := g.host[s := w], queue := g.queue + [c])
  }

  lemma DrainBoth(g: Gpu, s: nat, w: Block, c: Copy, n: nat)
    requires Shaped(g) && Unread(g.queue, s) && s < |g.host| && c.stage < |g.host| && c.slot < |g.dev| && n <= g.issued
    ensures QueueFits(Queued(g, s, w, c)) && |DrainTo(g, n).host| == |g.host|
    ensures DrainTo(Queued(g, s, w, c), n) == Queued(DrainTo(g, n), s, w, c)
  {
    DrainFilled(g, s, w, n);
    DrainQueued(g.(host := g.host[s := w]), c, n);
  }

  lemma UploadAs(g: Gpu, r: Gpu, k: nat, slot: nat, s: nat, w: Block)
    requires Shaped(g) && s < |g.host| && r == As(g, r)
    ensures SameStream(Queued(g, s, w, Copy(s, slot, k)), Upload(g, k, slot, s, w))
    ensures As(Upload(g, k, slot, s, w), Queued(r, s, w, Copy(s, slot, k))) == Upload(r, k, slot, s, w)
  {
  }

  lemma DrainUploaded(g: Gpu, k: nat, slot: nat, s: nat, w: Block, n: nat)
    requires Shaped(g) && Unread(g.queue, s) && s < |g.host| && slot < |g.dev| && n <= g.issued
    ensures QueueFits(Upload(g, k, slot, s, w)) && Shaped(DrainTo(g, n)) && |DrainTo(g, n).host| == |g.host|
    ensures DrainTo(Upload(g, k, slot, s, w), n) == Upload(DrainTo(g, n), k, slot, s, w)
  {
    var c := Copy(s, slot, k);
    DrainAs(g, n);
    DrainBoth(g, s, w, c, n);
    UploadAs(g, DrainTo(g, n), k, slot, s, w);
    hide DrainTo, QueueFits, Unread, Queued, Upload, SameStream;
    DrainFrame(Queued(g, s, w, c), Upload(g, k, slot, s, w), n);
  }

  lemma VictimAs(g: Gpu, r: Gpu)
    requires Shaped(g) && Shaped(As(g, r)) && |r.dev| == |g.dev|
    ensures Victim(As(g, r)) == Victim(g)
  {
    hide QueueFits, Oldest, FirstFree;
  }

  lemma AcquireAs(g: Gpu, r: Gpu, k: nat)
    requires Shaped(g) && Shaped(As(g, r)) && |r.dev| == |g.dev|
    ensures Acquire(As(g, r), k) == (As(Acquire(g, k).0, r), Acquire(g, k).1, Acquire(g, k).2)
  {
    hide QueueFits, Victim, Owners;
    VictimAs(g, r);
  }

  lemma AcquireDrained(g: Gpu, k: nat, n: nat)
    requires Shaped(g)
    ensures Shaped(DrainTo(g, n)) && Shaped(Acquire(g, k).0)
    ensures Acquire(DrainTo(g, n), k) == (DrainTo(Acquire(g, k).0, n), Acquire(g, k).1, Acquire(g, k).2)
  {
    DrainAs(g, n);
    AcquireShaped(g, k);
    AcquireAs(g, DrainTo(g, n), k);
    AcquireStream(g, k);
    hide Acquire, Shaped, DrainTo;
    DrainFrame(g, Acquire(g, k).0, n);
  }

  lemma AcquireStream(g: Gpu, k: nat)
    requires Shaped(g)
    ensures SameStream(g, Acquire(g, k).0) && QueueFits(g)
  {
  }

  lemma ClaimDrained(g: Gpu, n: nat)
    requires Shaped(g) && n <= g.issued
    ensures Shaped(DrainTo(g, n)) && Claim(DrainTo(g, n)).1 == Claim(g).1 && QueueFits(Claim(g).0)
    ensures Claim(DrainTo(g, n)).0 == if g.slotPending[g.nextStage] then Claim(g).0 else DrainTo(Claim(g).0, n)
  {
    DrainAs(g, n);
    assert g.nextStage < |g.slotPending|;
    hide Claim, DrainTo, Turned, QueueFits, Shaped;
    ClaimIs(g);
    ClaimIs(DrainTo(g, n));
    TurnedDrained(g, n);
    ShapedFits(Turned(g));
    DrainTwice(Turned(g), n, g.issued);
  }

  // ---------------------------------------------------------------- a run without failing computations that keeps up

  /** b is x with some of the copies the compute stream waits for carried out already. */
  ghost predicate Behind(x: Host, b: Gpu) {
    && Shaped(x.g) && x.gate <= x.g.issued && b.done <= Max(x.g.done, x.gate)
    && b == DrainTo(x.g, b.done)
  }

  /** The pinned slot that staging k would overwrite is read by no queued copy. */
  ghost predicate SafeClaim(g: Gpu, k: nat)
    requires Shaped(g)
  {
    k in g.slotOf || g.slotPending[g.nextStage] || Unread(g.queue, g.nextStage)
  }

  lemma ClaimIs(g: Gpu)
    requires Shaped(g)
    ensures Shaped(Turned(g)) && Shaped(DrainTo(Turned(g), g.issued)) && DrainTo(Turned(g), g.issued).queue == []
    ensures Claim(g) == (if g.slotPending[g.nextStage]
                         then DrainTo(Turned(g), g.issued).(slotPending := seq(|g.slotPending|, _ => false))
                         else Turned(g), g.nextStage)
    ensures DrainTo(Turned(g), g.issued).issued == g.issued && DrainTo(Turned(g), g.issued).done >= g.done
  {
    assert Shaped(Turned(g));
    DrainShaped(Turned(g), g.issued);
  }

  lemma ClaimFacts(g: Gpu, k: nat)
    requires Shaped(g) && k !in g.slotOf && SafeClaim(g, k)
    ensures Shaped(Acquire(g, k).0) && Shaped(Claim(Acquire(g, k).0).0)
    ensures var a := Acquire(g, k).0; var (c, s) := Claim(a);
      && s < |c.host| && Unread(c.queue, s) && c.issued == g.issued && a.done == g.done && c.done >= g.done
      && a.slotPending == g.slotPending && a.nextStage == g.nextStage && a.issued == g.issued
      && (g.slotPending[g.nextStage] ==> c.queue == [])
  {
    AcquireShaped(g, k);
    var a := Acquire(g, k).0;
    assert a.slotPending == g.slotPending && a.nextStage == g.nextStage && a.issued == g.issued && a.done == g.done;
    ClaimShaped(a);
    ClaimIs(a);
    hide Acquire, Claim, DrainTo, QueueFits;
  }

  lemma TouchBehind(x: Host, b: Gpu, k: nat)
    requires Behind(x, b)
    ensures Shaped(b) && Shaped(Acquire(x.g, k).0) && Behind(Host(Acquire(x.g, k).0, x.gate), Acquire(b, k).0)
    ensures b.slotOf == x.g.slotOf
  {
    AcquireDrained(x.g, k, b.done);
    DrainAs(x.g, b.done);
    AcquireStream(x.g, k);
    AcquireStream(b, k);
    AcquireIssued(x.g, k);
    hide Acquire, DrainTo, Shaped;
  }

  lemma AcquireIssued(g: Gpu, k: nat)
    requires Shaped(g)
    ensures Acquire(g, k).0.issued == g.issued
  {
  }

  lemma UploadBehind(c: Gpu, gate: nat, k: nat, slot: nat, s: nat, w: Block, n: nat)
    requires Shaped(c) && s < |c.host| && slot < |c.dev| && Unread(c.queue, s)
    requires n <= c.issued && gate <= c.issued && n <= Max(c.done, gate)
    ensures Shaped(DrainTo(c, n)) && s < |DrainTo(c, n).host|
    ensures Behind(Host(Upload(c, k, slot, s, w), gate), Upload(DrainTo(c, n), k, slot, s, w))
  {
    DrainAs(c, n);
    UploadShaped(c, k, slot, s, w);
    ShapedFits(c);
    DrainDone(c, n);
    if n <= c.done {
      DrainedAlready(Upload(c, k, slot, s, w));
      DrainBelow(c, n, c.done);
      DrainedAlready(c);
    } else {
      hide DrainTo, Shaped, QueueFits;
      DrainUploaded(c, k, slot, s, w, n);
    }
  }

  lemma StageBehind(x: Host, b: Gpu, k: nat, w: Block)
    requires Behind(x, b) && SafeClaim(x.g, k) && k !in x.g.slotOf
    ensures Shaped(b) && Shaped(Stage(x.g, k, w))
    ensures Behind(Host(Stage(x.g, k, w), x.gate), Stage(b, k, w))
  {
    TouchBehind(x, b, k);
    AcquireDrained(x.g, k, b.done);
    ClaimFacts(x.g, k);
    var (a, slot, _) := Acquire(x.g, k);
    var (c, s) := Claim(a);
    BehindDone(x, b);
    assert slot < |c.dev| by { ClaimShaped(a); }
    UploadShaped(c, k, slot, s, w);
    StageIs(x.g, k, w);
    StageIs(b, k, w);
    hide Acquire, Claim, DrainTo, Victim, Stage, Shaped, SafeClaim, Behind;
    ClaimDrained(a, b.done);
    BehindReaches(x, b, c);
    if x.g.slotPending[x.g.nextStage] {
      UploadBehind(c, x.gate, k, slot, s, w, c.done);
      assert DrainTo(c, c.done) == c by { DrainedAlready(c); }
    } else {
      UploadBehind(c, x.gate, k, slot, s, w, b.done);
    }
  }

  lemma BehindDone(x: Host, b: Gpu)
    requires Behind(x, b)
    ensures b.done <= x.g.issued
  {
  }

  lemma StageIs(g: Gpu, k: nat, w: Block)
    requires Shaped(g) && k !in g.slotOf
    ensures Shaped(Acquire(g, k).0) && Shaped(Claim(Acquire(g, k).0).0)
    ensures var (c, s) := Claim(Acquire(g, k).0);
      s < |c.host| && s < |c.event| && s < |c.slotPending| && Stage(g, k, w) == Upload(c, k, Acquire(g, k).1, s, w)
  {
    AcquireShaped(g, k);
    ClaimShaped(Acquire(g, k).0);
    hide Claim, Victim;
  }

  lemma UploadShaped(g: Gpu, k: nat, slot: nat, s: nat, w: Block)
    requires Shaped(g) && s < |g.host| && slot < |g.dev|
    ensures Shaped(Upload(g, k, slot, s, w))
  {
  }

  lemma FailedIs(g: Gpu, k: nat, w: Block)
    requires Shaped(g) && k !in g.slotOf
    ensures Shaped(Acquire(g, k).0) && Shaped(Claim(Acquire(g, k).0).0)
    ensures var a := Acquire(g, k).0; var (c, s) := Claim(a);
      && s < |c.host| && StageFailed(g, k, w, CopyFails) == c.(host := c.host[s := w])
      && StageFailed(g, k, w, DrainFails) == Turned(a)
  {
    AcquireShaped(g, k);
    ClaimShaped(Acquire(g, k).0);
    hide Claim, Victim;
  }

  /** The drain before a marked pinned slot is reused fails: only the cursor moves. */
  lemma DrainFailsBehind(x: Host, b: Gpu, k: nat, w: Block)
    requires Behind(x, b) && k !in x.g.slotOf
    ensures Shaped(b) && Shaped(StageFailed(x.g, k, w, DrainFails))
    ensures Behind(Host(StageFailed(x.g, k, w, DrainFails), x.gate), StageFailed(b, k, w, DrainFails))
  {
    TouchBehind(x, b, k);
    AcquireDrained(x.g, k, b.done);
    BehindDone(x, b);
    FailedIs(x.g, k, w);
    FailedIs(b, k, w);
    AcquireIssued(x.g, k);
    AcquireStream(x.g, k);
    AcquireStream(b, k);
    var a := Acquire(x.g, k).0;
    hide Acquire, DrainTo, StageFailed, Shaped, Turned;
    TurnedDrained(a, b.done);
  }

  /** Filling the claimed slot in both runs. */
  lemma FilledBehind(c: Gpu, gate: nat, s: nat, w: Block, n: nat)
    requires Shaped(c) && s < |c.host| && Unread(c.queue, s)
    requires n <= c.issued && gate <= c.issued && n <= Max(c.done, gate)
    ensures Shaped(DrainTo(c, n)) && s < |DrainTo(c, n).host|
    ensures Behind(Host(c.(host := c.host[s := w]), gate), DrainTo(c, n).(host := DrainTo(c, n).host[s := w]))
  {
    DrainAs(c, n);
    FilledShaped(c, s, w);
    ShapedFits(c);
    DrainDone(c, n);
    var f := c.(host := c.host[s := w]);
    if n <= c.done {
      DrainedAlready(f);
      DrainBelow(c, n, c.done);
      DrainedAlready(c);
    } else {
      hide DrainTo, Shaped, QueueFits;
      DrainFilled(c, s, w, n);
    }
  }

  /** Queueing the upload fails: the pinned slot is filled all the same. */
  lemma CopyFailsBehind(x: Host, b: Gpu, k: nat, w: Block)
    requires Behind(x, b) && k !in x.g.slotOf && SafeClaim(x.g, k)
    ensures Shaped(b) && Shaped(StageFailed(x.g, k, w, CopyFails))
    ensures Behind(Host(StageFailed(x.g, k, w, CopyFails), x.gate), StageFailed(b, k, w, CopyFails))
  {
    TouchBehind(x, b, k);
    AcquireDrained(x.g, k, b.done);
    BehindDone(x, b);
    FailedIs(x.g, k, w);
    FailedIs(b, k, w);
    ClaimFacts(x.g, k);
    var a := Acquire(x.g, k).0;
    var (c, s) := Claim(a);
    FilledShaped(c, s, w);
    hide Acquire, Claim, DrainTo, StageFailed, Shaped, SafeClaim, Behind, Turned;
    ClaimDrained(a, b.done);
    BehindReaches(x, b, c);
    if x.g.slotPending[x.g.nextStage] {
      FilledBehind(c, x.gate, s, w, c.done);
      assert DrainTo(c, c.done) == c by { DrainedAlready(c); }
    } else {
      FilledBehind(c, x.gate, s, w, b.done);
    }
  }

  lemma BehindReaches(x: Host, b: Gpu, c: Gpu)
    requires Behind(x, b) && c.issued == x.g.issued && c.done >= x.g.done && Shaped(c)
    ensures x.gate <= c.issued && b.done <= Max(c.done, x.gate) && c.done <= c.issued && QueueFits(c)
  {
  }

  lemma FilledShaped(g: Gpu, s: nat, w: Block)
    requires Shaped(g) && s < |g.host|
    ensures Shaped(g.(host := g.host[s := w]))
  {
  }

  // ---------------------------------------------------------------- computations

  lemma AwaitIs(g: Gpu, k: nat)
    requires Shaped(g) && Waits(g, k)
    ensures g.uploadStage[k] < |g.event| && Shaped(DrainTo(g, g.event[g.uploadStage[k]]))
    ensures var d := DrainTo(g, g.event[g.uploadStage[k]]); Waits(d, k) && Await(g, k) == Cleared(d, k)
  {
    DrainAs(g, g.event[g.uploadStage[k]]);
  }

  lemma ClearedShaped(g: Gpu, k: nat)
    requires Shaped(g) && Waits(g, k)
    ensures Shaped(Cleared(g, k)) && SameStream(g, Cleared(g, k))
  {
  }

  /** Clearing marks may come before or after the draining. */
  lemma ClearedDrained(g: Gpu, k: nat, n: nat)
    requires Shaped(g) && Waits(g, k)
    ensures Shaped(Cleared(g, k)) && Shaped(DrainTo(g, n)) && Waits(DrainTo(g, n), k)
    ensures DrainTo(Cleared(g, k), n) == Cleared(DrainTo(g, n), k)
  {
    DrainAs(g, n);
    ClearedShaped(g, k);
    DrainFrame(g, Cleared(g, k), n);
  }

  /** The run that keeps up computes after carrying out what the compute stream
      waits for, and reads the same block. */
  lemma ComputeMatches(x: Host, b: Gpu, k: nat)
    requires Behind(x, b) && k in x.g.slotOf
    ensures Shaped(b) && Shaped(DrainTo(b, x.gate)) && DrainTo(b, x.gate).slotOf == x.g.slotOf
    ensures Ffn(DrainTo(b, x.gate), k) == (Compute(x, k).0.g, Compute(x, k).1)
  {
    var g, n := x.g, b.done;
    DrainAs(g, n);
    DrainAs(b, x.gate);
    var d := DrainTo(b, x.gate);
    DrainTwice(g, n, x.gate);
    if n <= g.done { DrainBelow(g, n, x.gate); }
    assert d == DrainTo(g, x.gate);
    if Waits(g, k) {
      var ev := g.event[g.uploadStage[k]];
      AwaitIs(d, k);
      hide DrainTo, Shaped, Cleared;
      ClearedDrained(g, k, Max(x.gate, ev));
      DrainTwiceFits(g, x.gate, ev);
    }
  }

  lemma DrainTwiceFits(g: Gpu, m: nat, n: nat)
    requires Shaped(g)
    ensures Shaped(DrainTo(g, m)) && DrainTo(DrainTo(g, m), n) == DrainTo(g, Max(m, n))
  {
    DrainAs(g, m);
    DrainTwice(g, m, n);
  }

  lemma FailBehind(x: Host, b: Gpu, k: nat)
    requires Behind(x, b) && EventsOk(x.g) && k in x.g.slotOf && Waits(x.g, k)
    ensures Shaped(b) && Behind(Fail(x, k), Await(b, k))
  {
    var g, n := x.g, b.done;
    DrainAs(g, n);
    assert Waits(b, k);
    AwaitIs(b, k);
    AwaitIs(g, k);
    var ev := g.event[g.uploadStage[k]];
    BehindDone(x, b);
    hide DrainTo, Shaped, Waits;
    ClearedShaped(g, k);
    DrainTwiceFits(g, n, ev);
    ClearedDrained(g, k, Max(n, ev));
    DrainDone(g, Max(n, ev));
  }

  lemma DeviceBehind(x: Host, b: Gpu)
    requires Behind(x, b) && x.g.queue != []
    ensures Shaped(CopyOne(x.g))
    ensures b.done > x.g.done ==> Behind(Host(CopyOne(x.g), x.gate), b)
    ensures b.done <= x.g.done ==> b == x.g && Behind(Host(CopyOne(x.g), x.gate), CopyOne(x.g))
  {
    assert Shaped(CopyOne(x.g));
    DrainedAlready(CopyOne(x.g));
  }

  // ---------------------------------------------------------------- whole runs

  /** Nothing that is still to be copied is overwritten by the action. */
  ghost predicate SafeAct(x: Host, a: Action)
    requires Shaped(x.g)
  {
    a.Plain? && (a.step.StageStep? || a.step.FaultStep?) ==> SafeClaim(x.g, a.step.key)
  }

  ghost predicate SafeRun(x: Host, actions: seq<Action>, weights: nat -> Block)
    decreases |actions|
  {
    actions != [] && Possible(x, actions[0]) ==>
      SafeAct(x, actions[0]) && SafeRun(Act(x, actions[0], weights), actions[1..], weights)
  }

  /** The experts whose last admission failed, as without failing computations. */
  ghost function SpoiltAct(x: Host, a: Action, before: set<nat>): set<nat> {
    match a case Plain(step) => Spoilt(x.g, step, before) case ComputeFails(_) => before
  }

  ghost function SpoiltRun(x: Host, actions: seq<Action>, weights: nat -> Block, before: set<nat>): set<nat>
    decreases |actions|
  {
    if actions == [] || !Possible(x, actions[0]) then before
    else SpoiltRun(Act(x, actions[0], weights), actions[1..], weights, SpoiltAct(x, actions[0], before))
  }

  /** The device can carry out copies up to any position. */
  lemma {:induction false} CatchesUp(b: Gpu, n: nat, weights: nat -> Block, before: set<nat>) returns (steps: seq<Step>)
    requires Shaped(b)
    ensures Follows(b, steps, weights, DrainTo(b, n), before, before)
    decreases |b.queue|
  {
    hide Follows;
    if b.queue == [] || b.done >= n {
      steps := [];
      FollowsNone(b, weights, before);
    } else {
      var c := CopyOne(b);
      assert Shaped(c);
      var rest := CatchesUp(c, n, weights, before);
      FollowsOne(b, DeviceStep, weights, before);
      FollowsConcat(b, [DeviceStep], weights, c, rest, DrainTo(b, n), before, before, before);
      steps := [DeviceStep] + rest;
    }
  }

  /** What the simulation carries along. */
  ghost predicate Matched(x: Host, b: Gpu, except: set<nat>, weights: nat -> Block) {
    Behind(x, b) && EventsOk(x.g) && Inv(b, except, weights)
  }

  lemma SameTables(x: Host, b: Gpu)
    requires Behind(x, b)
    ensures Shaped(b) && b.slotOf == x.g.slotOf
  {
    DrainAs(x.g, b.done);
  }

  lemma StageMatched(x: Host, b: Gpu, k: nat, fault: Option<Fault>, except: set<nat>, weights: nat -> Block)
    requires Behind(x, b) && SafeClaim(x.g, k)
    ensures Shaped(b) && Shaped(x.g)
    ensures fault.None? ==> Behind(Host(Stage(x.g, k, weights(k)), x.gate), Stage(b, k, weights(k)))
    ensures fault.Some? ==>
      Behind(Host(StageFailed(x.g, k, weights(k), fault.value), x.gate), StageFailed(b, k, weights(k), fault.value))
  {
    SameTables(x, b);
    hide SafeClaim;
    if k in x.g.slotOf {
      TouchBehind(x, b, k);
      hide Behind, Shaped;
    } else {
      hide Behind, Shaped, Stage, StageFailed;
      match fault {
        case None => StageBehind(x, b, k, weights(k));
        case Some(f) =>
          if f.DrainFails? { DrainFailsBehind(x, b, k, weights(k)); } else { CopyFailsBehind(x, b, k, weights(k)); }
      }
    }
  }

  lemma GateIssued(x: Host, k: nat)
    requires Shaped(x.g) && EventsOk(x.g) && x.gate <= x.g.issued
    ensures GateFor(x, k) <= x.g.issued
  {
  }

  lemma ComputeBehind(x: Host, b: Gpu, k: nat)
    requires Behind(x, b) && EventsOk(x.g) && k in x.g.slotOf
    ensures Shaped(b) && Shaped(DrainTo(b, x.gate)) && Behind(Compute(x, k).0, Ffn(DrainTo(b, x.gate), k).0)
  {
    ComputeMatches(x, b, k);
    GateIssued(x, k);
    var g := Compute(x, k).0.g;
    assert g.issued == x.g.issued && Shaped(g) by {
      FailShaped(x, k);
      DrainAs(Fail(x, k).g, Fail(x, k).gate);
    }
    DrainedAlready(g);
  }

  lemma SpoiltSame(x: Host, b: Gpu, step: Step, except: set<nat>)
    requires Behind(x, b)
    ensures Spoilt(b, step, except) == Spoilt(x.g, step, except)
  {
    SameTables(x, b);
  }

  /** A plain step other than a computation. */
  lemma PlainMatched(x: Host, step: Step, b: Gpu, except: set<nat>, weights: nat -> Block)
    returns (steps: seq<Step>, c: Gpu)
    requires Behind(x, b) && Possible(x, Plain(step)) && SafeAct(x, Plain(step)) && !step.FfnStep?
    ensures Follows(b, steps, weights, c, except, Spoilt(x.g, step, except))
    ensures Behind(Host(Do(x.g, step, weights), x.gate), c)
  {
    SameTables(x, b);
    SpoiltSame(x, b, step, except);
    hide Behind, Follows, Shaped, Stage, StageFailed, SafeClaim;
    steps := [step];
    match step {
      case StageStep(k) =>
        StageMatched(x, b, k, None, except, weights);
        c := Stage(b, k, weights(k));
        FollowsOne(b, step, weights, except);
      case FaultStep(k, fault) =>
        StageMatched(x, b, k, Some(fault), except, weights);
        c := StageFailed(b, k, weights(k), fault);
        FollowsOne(b, step, weights, except);
      case DeviceStep =>
        DeviceBehind(x, b);
        if b.done > x.g.done {
          steps, c := [], b;
          FollowsNone(b, weights, except);
        } else {
          c := CopyOne(b);
          FollowsOne(b, step, weights, except);
        }
    }
  }

  /** A computation is matched by carrying out what its stream waits for, and computing. */
  lemma ComputeFollows(x: Host, k: nat, b: Gpu, except: set<nat>, weights: nat -> Block)
    returns (steps: seq<Step>, c: Gpu)
    requires Behind(x, b) && EventsOk(x.g) && k in x.g.slotOf && k > 0
    ensures Follows(b, steps, weights, c, except, except) && Behind(Compute(x, k).0, c)
  {
    hide Behind, EventsOk, Follows, Shaped, Compute, Await, DrainTo;
    ComputeBehind(x, b, k);
    var b1 := DrainTo(b, x.gate);
    c := Ffn(b1, k).0;
    steps := CatchesUp(b, x.gate, weights, except);
    FollowsOne(b1, FfnStep(k), weights, except);
    FollowsConcat(b, steps, weights, b1, [FfnStep(k)], c, except, except, except);
    steps := steps + [FfnStep(k)];
  }

  /** A failing computation is matched by one that succeeds. */
  lemma FailFollows(x: Host, k: nat, b: Gpu, except: set<nat>, weights: nat -> Block)
    returns (steps: seq<Step>, c: Gpu)
    requires Behind(x, b) && EventsOk(x.g) && k in x.g.slotOf && Waits(x.g, k) && k > 0
    ensures Follows(b, steps, weights, c, except, except) && Behind(Fail(x, k), c)
  {
    hide Behind, EventsOk, Follows, Shaped, Fail, Await, Waits;
    SameTables(x, b);
    FailBehind(x, b, k);
    c, steps := Await(b, k), [FfnStep(k)];
    FollowsOne(b, FfnStep(k), weights, except);
  }

  /** One action is matched by steps of the run that keeps up. */
  lemma ActMatched(x: Host, a: Action, b: Gpu, except: set<nat>, weights: nat -> Block)
    returns (steps: seq<Step>, c: Gpu)
    requires Matched(x, b, except, weights) && Possible(x, a) && SafeAct(x, a)
    ensures Follows(b, steps, weights, c, except, SpoiltAct(x, a, except)) && Behind(Act(x, a, weights), c)
  {
    SameTables(x, b);
    assert 0 !in b.slotOf;
    hide Behind, Inv, EventsOk, Follows, Shaped, Compute, Await, SafeClaim, Waits, DrainTo;
    steps, c := [], b;
    FollowsNone(b, weights, except);
    match a {
      case Plain(step) =>
        if !step.FfnStep? {
          steps, c := PlainMatched(x, step, b, except, weights);
        } else if step.key in x.g.slotOf {
          steps, c := ComputeFollows(x, step.key, b, except, weights);
        } else {
          ComputeRefused(x, step.key);
        }
      case ComputeFails(k) =>
        if k in x.g.slotOf && Waits(x.g, k) {
          steps, c := FailFollows(x, k, b, except, weights);
        }
    }
  }

  lemma ComputeRefused(x: Host, k: nat)
    requires Shaped(x.g) && k !in x.g.slotOf
    ensures Compute(x, k) == (x, None)
  {
  }

  // ---------------------------------------------------------------- events

  /** The event recorded for the pinned slot of the i-th queued copy lies no earlier than the copy. */
  ghost predicate Announced(g: Gpu, i: nat)
    requires Shaped(g) && i < |g.queue|
  {
    g.done + i + 1 <= g.event[g.queue[i].stage]
  }

  /** While an event has not been passed, the copy it was recorded for is queued. */
  ghost predicate Awaited(g: Gpu, s: nat)
    requires Shaped(g) && s < |g.event|
  {
    g.done < g.event[s] ==> g.event[s] <= g.issued && g.queue[g.event[s] - g.done - 1].stage == s
  }

  /** Events lie where the copies that last read their pinned slots are queued. */
  ghost predicate Recorded(g: Gpu) {
    && Shaped(g) && EventsOk(g)
    && (forall i: nat :: i < |g.queue| ==> Announced(g, i))
    && (forall s: nat :: s < |g.event| ==> Awaited(g, s))
  }

  /** A pinned slot is read by no queued copy if and only if the copy last recorded
      for it has been carried out. */
  lemma UnreadIffCarriedOut(g: Gpu, s: nat)
    requires Recorded(g) && s < |g.event|
    ensures Unread(g.queue, s) <==> g.event[s] <= g.done
  {
    assert Awaited(g, s);
    forall i: nat | i < |g.queue| && g.queue[i].stage == s ensures g.done < g.event[s] {
      assert Announced(g, i);
    }
  }

  lemma RecordedCopy(g: Gpu)
    requires Recorded(g) && g.queue != []
    ensures Recorded(CopyOne(g))
  {
    var h := CopyOne(g);
    assert Shaped(h);
    forall i: nat | i < |h.queue| ensures Announced(h, i) { assert Announced(g, i + 1); }
    forall s: nat | s < |h.event| ensures Awaited(h, s) { assert Awaited(g, s); }
  }

  lemma {:induction false} RecordedDrain(g: Gpu, n: nat)
    requires Recorded(g)
    ensures Recorded(DrainTo(g, n))
    decreases |g.queue|
  {
    if g.queue != [] && g.done < n {
      RecordedCopy(g);
      RecordedDrain(CopyOne(g), n);
    }
  }

  lemma RecordedElsewhere(g: Gpu, h: Gpu)
    requires Recorded(g) && Shaped(h)
    requires h.queue == g.queue && h.done == g.done && h.issued == g.issued && h.event == g.event
    ensures Recorded(h)
  {
    forall i: nat | i < |h.queue| ensures Announced(h, i) { assert Announced(g, i); }
    forall s: nat | s < |h.event| ensures Awaited(h, s) { assert Awaited(g, s); }
  }

  lemma RecordedUpload(g: Gpu, k: nat, slot: nat, s: nat, w: Block)
    requires Recorded(g) && s < |g.host| && slot < |g.dev|
    ensures Recorded(Upload(g, k, slot, s, w))
  {
    UploadShaped(g, k, slot, s, w);
    var h := Upload(g, k, slot, s, w);
    forall i: nat | i < |h.queue| ensures Announced(h, i) {
      if i < |g.queue| { assert Announced(g, i); }
    }
    forall z: nat | z < |h.event| ensures Awaited(h, z) { assert Awaited(g, z); }
  }

  lemma RecordedClaim(g: Gpu)
    requires Recorded(g)
    ensures Recorded(Claim(g).0) && Claim(g).1 < |g.host| == |Claim(g).0.host|
  {
    ClaimShaped(g);
    var next := Turned(g);
    RecordedElsewhere(g, next);
    RecordedDrain(next, next.issued);
    if g.slotPending[g.nextStage] { RecordedElsewhere(DrainTo(next, next.issued), Claim(g).0); }
  }

  lemma RecordedStage(g: Gpu, k: nat, fault: Fault, w: Block)
    requires Recorded(g)
    ensures Recorded(Stage(g, k, w)) && Recorded(StageFailed(g, k, w, fault))
  {
    var a := Acquire(g, k).0;
    AcquireShaped(g, k);
    AcquireStream(g, k);
    assert a.event == g.event && a.issued == g.issued;
    RecordedElsewhere(g, a);
    if k !in g.slotOf {
      RecordedClaim(a);
      ClaimShaped(a);
      var (c, s) := Claim(a);
      StageIs(g, k, w);
      FailedIs(g, k, w);
      FilledShaped(c, s, w);
      TurnedDrained(a, 0);
      hide Shaped, Recorded, Stage, StageFailed, Acquire, Claim;
      RecordedUpload(c, k, Acquire(g, k).1, s, w);
      RecordedElsewhere(c, c.(host := c.host[s := w]));
      assert Turned(a).queue == a.queue && Turned(a).event == a.event;
      RecordedElsewhere(a, Turned(a));
    }
  }

  lemma RecordedFail(x: Host, k: nat)
    requires Recorded(x.g)
    ensures Recorded(Fail(x, k).g)
  {
    if k in x.g.slotOf && Waits(x.g, k) {
      ClearedShaped(x.g, k);
      RecordedElsewhere(x.g, Cleared(x.g, k));
    }
  }

  lemma RecordedAct(x: Host, a: Action, weights: nat -> Block)
    requires Recorded(x.g) && Possible(x, a)
    ensures Recorded(Act(x, a, weights).g)
  {
    hide Shaped, Recorded, Stage, StageFailed, Fail;
    match a {
      case Plain(StageStep(k)) => RecordedStage(x.g, k, DrainFails, weights(k));
      case Plain(FaultStep(k, fault)) => RecordedStage(x.g, k, fault, weights(k));
      case Plain(FfnStep(k)) =>
        RecordedFail(x, k);
        RecordedDrain(Fail(x, k).g, Fail(x, k).gate);
      case Plain(DeviceStep) => RecordedCopy(x.g);
      case ComputeFails(k) => RecordedFail(x, k);
    }
  }

  lemma {:induction false} RunRecorded(x: Host, actions: seq<Action>, weights: nat -> Block, y: Host)
    requires Recorded(x.g) && Reaches(x, actions, weights, y)
    ensures Recorded(y.g)
    decreases |actions|
  {
    hide Recorded, Possible, Act;
    if actions != [] {
      RecordedAct(x, actions[0], weights);
      RunRecorded(Act(x, actions[0], weights), actions[1..], weights, y);
    }
  }

  lemma InitialRecorded(g: Gpu)
    requires Initial(g)
    ensures Recorded(g)
  {
  }

  /** When a pinned slot may be reused, exactly, over every run with failing
      stagings and failing computations: the slot handed out is read by no queued
      copy if and only if it was marked (the stream is drained then) or the copy
      last recorded for it has been carried out. */
  lemma ClaimIsSafeExactly(g: Gpu, actions: seq<Action>, weights: nat -> Block, y: Host, k: nat)
    requires Initial(g) && Reaches(Host(g, 0), actions, weights, y) && k !in y.g.slotOf
    ensures Shaped(y.g) && Shaped(Acquire(y.g, k).0)
    ensures var (c, s) := Claim(Acquire(y.g, k).0);
      Unread(c.queue, s) <==> y.g.slotPending[y.g.nextStage] || y.g.event[y.g.nextStage] <= y.g.done
  {
    InitialRecorded(g);
    RunRecorded(Host(g, 0), actions, weights, y);
    UnreadIffCarriedOut(y.g, y.g.nextStage);
    ClaimReads(y.g, k);
  }

  lemma ClaimReads(g: Gpu, k: nat)
    requires Shaped(g) && k !in g.slotOf
    ensures Shaped(Acquire(g, k).0)
    ensures var (c, s) := Claim(Acquire(g, k).0);
      s == g.nextStage && (if g.slotPending[s] then c.queue == [] else c.queue == g.queue)
  {
    AcquireShaped(g, k);
    var a := Acquire(g, k).0;
    var next := Turned(a);
    assert Shaped(next);
    DrainShaped(next, next.issued);
  }

  // ---------------------------------------------------------------- what failing computations cannot change

  /** As long as no action overwrites a pinned slot that is still to be copied from,
      the run is matched by one without failing computations. */
  lemma {:induction false} RunMatched(x: Host, actions: seq<Action>, weights: nat -> Block, y: Host, b: Gpu,
                                      except: set<nat>) returns (steps: seq<Step>, c: Gpu)
    requires Behind(x, b) && Recorded(x.g) && Inv(b, except, weights)
    requires Reaches(x, actions, weights, y) && SafeRun(x, actions, weights)
    ensures Follows(b, steps, weights, c, except, SpoiltRun(x, actions, weights, except)) && Behind(y, c)
    decreases |actions|
  {
    hide Behind, Recorded, Inv, Possible, Act, SafeAct, Follows, SpoiltAct;
    if actions == [] {
      steps, c := [], b;
      FollowsNone(b, weights, except);
    } else {
      var a := actions[0];
      var after := SpoiltAct(x, a, except);
      assert EventsOk(x.g) by { EventsRecorded(x.g); }
      var front, mid := ActMatched(x, a, b, except, weights);
      RecordedAct(x, a, weights);
      FollowsInv(b, front, weights, mid, except, after);
      var rest;
      rest, c := RunMatched(Act(x, a, weights), actions[1..], weights, y, mid, after);
      FollowsConcat(b, front, weights, mid, rest, c, except, after, SpoiltRun(x, actions, weights, except));
      steps := front + rest;
    }
  }

  lemma EventsRecorded(g: Gpu)
    requires Recorded(g)
    ensures EventsOk(g)
  {
  }

  lemma FollowsInv(b: Gpu, steps: seq<Step>, weights: nat -> Block, c: Gpu, before: set<nat>, after: set<nat>)
    requires Inv(b, before, weights) && Follows(b, steps, weights, c, before, after)
    ensures Inv(c, after, weights)
  {
    hide Inv, Leads, SpoiltBy;
    RunInv(b, steps, before, weights, c);
  }

  /** Failing computations are harmless by themselves: over every run in which no
      action overwrites a pinned slot that is still to be copied from, whatever
      computations failed, a computation on an expert whose own last admission did
      not fail reads that expert's weights. */
  lemma ComputeReadsItsWeights(g: Gpu, actions: seq<Action>, weights: nat -> Block, y: Host, k: nat)
    requires Initial(g) && Reaches(Host(g, 0), actions, weights, y) && SafeRun(Host(g, 0), actions, weights)
    requires k in y.g.slotOf && k !in SpoiltRun(Host(g, 0), actions, weights, {})
    ensures Shaped(y.g) && Compute(y, k).1 == Some(weights(k))
  {
    assert Inv(g, {}, weights) && Behind(Host(g, 0), g);
    InitialRecorded(g);
    hide Behind, Recorded, Inv, Initial, Reaches, SafeRun, SpoiltRun, Compute, Ffn, Leads, SpoiltBy;
    var spoilt := SpoiltRun(Host(g, 0), actions, weights, {});
    var steps, b := RunMatched(Host(g, 0), actions, weights, y, g, {});
    SameTables(y, b);
    assert Shaped(y.g) by { BehindShaped(y, b); }
    var b1 := DrainTo(b, y.gate);
    var more := CatchesUp(b, y.gate, weights, spoilt);
    FollowsConcat(g, steps, weights, b, more, b1, {}, spoilt, spoilt);
    ComputeMatches(y, b, k);
    FfnReadsItsWeights(g, steps + more, weights, b1, k);
  }

  lemma BehindShaped(x: Host, b: Gpu)
    requires Behind(x, b)
    ensures Shaped(x.g)
  {
  }

  // ---------------------------------------------------------------- what they can change

  ghost predicate NoneFails(actions: seq<Action>) {
    forall i :: 0 <= i < |actions| ==> actions[i].Plain?
  }

  /** Marked copies are only overwritten after a drain. */
  lemma MarkedIsSafe(g: Gpu, k: nat, except: set<nat>, weights: nat -> Block)
    requires Inv(g, except, weights)
    ensures SafeClaim(g, k)
  {
    forall i: nat | i < |g.queue| && !g.slotPending[g.nextStage] ensures g.queue[i].stage != g.nextStage {
      assert CopyOk(g, i, weights);
    }
  }

  lemma PlainActs(x: Host, step: Step, except: set<nat>, weights: nat -> Block)
    requires Inv(x.g, except, weights) && x.gate <= x.g.done && Enabled(x.g, step)
    ensures var y := Act(x, Plain(step), weights); y.g == Do(x.g, step, weights) && y.gate <= y.g.done
  {
    match step {
      case FfnStep(k) =>
        if k in x.g.slotOf {
          if Waits(x.g, k) {
            var ev := x.g.event[x.g.uploadStage[k]];
            AwaitIs(x.g, k);
            ClearedDrained(x.g, k, Max(x.gate, ev));
            DrainBelow(x.g, x.gate, ev);
            DrainDone(x.g, ev);
          } else {
            DrainStays(x.g, x.gate);
          }
        }
      case StageStep(k) => StageDone(x.g, k, weights(k), DrainFails);
      case FaultStep(k, fault) => StageDone(x.g, k, weights(k), fault);
      case DeviceStep =>
    }
  }

  lemma DrainStays(g: Gpu, n: nat)
    requires QueueFits(g) && n <= g.done
    ensures DrainTo(g, n) == g
  {
  }

  lemma StageDone(g: Gpu, k: nat, w: Block, fault: Fault)
    requires Shaped(g)
    ensures Stage(g, k, w).done >= g.done && StageFailed(g, k, w, fault).done >= g.done
  {
    AcquireStream(g, k);
    if k !in g.slotOf {
      StageIs(g, k, w);
      FailedIs(g, k, w);
      var a := Acquire(g, k).0;
      DrainShaped(Turned(a), Turned(a).issued);
    }
  }

  /** Without failing computations no such overwriting happens. */
  lemma {:induction false} PlainRunIsSafe(x: Host, actions: seq<Action>, weights: nat -> Block, except: set<nat>)
    requires Inv(x.g, except, weights) && x.gate <= x.g.done && NoneFails(actions)
    ensures SafeRun(x, actions, weights)
    decreases |actions|
  {
    hide Inv, Do, Act, SafeClaim;
    if actions != [] && Possible(x, actions[0]) {
      assert actions[0].Plain? && NoneFails(actions[1..]);
      var step := actions[0].step;
      if step.StageStep? || step.FaultStep? { MarkedIsSafe(x.g, step.key, except, weights); }
      PlainActs(x, step, except, weights);
      StepInv(x.g, step, except, weights);
      PlainRunIsSafe(Act(x, actions[0], weights), actions[1..], weights, Spoilt(x.g, step, except));
    }
  }

  /** One pinned slot, two device slots, nothing staged. */
  function Small(): Gpu {
    Gpu([[]], [[], []], [None, None], [], 0, 0, [0], [0, 0], [false, false], [false], 0, 0, map[], map[], map[])
  }

  /** j is staged into device slot 0, its upload queued. */
  function OneStaged(j: nat, w: Block): Gpu {
    Gpu([w], [[], []], [None, None], [Copy(0, 0, j)], 1, 0, [1], [1, 0], [true, false], [true], 0, 1, map[j := 0],
        map[j := true], map[j := 0])
  }

  /** The mark is cleared, and k is staged through the same pinned slot. */
  function Overwritten(j: nat, k: nat, w: Block): Gpu {
    Gpu([w], [[], []], [None, None], [Copy(0, 0, j), Copy(0, 1, k)], 2, 0, [2], [1, 2], [true, true], [true], 0, 2,
        map[j := 0, k := 1], map[j := false, k := true], map[j := 0, k := 0])
  }

  lemma AcquiresFirst(j: nat)
    ensures Shaped(Small()) && Initial(Small())
    ensures Acquire(Small(), j) ==
      (Small().(lastUse := [1, 0], inUse := [true, false], clock := 1, slotOf := map[j := 0]), 0, true)
  {
    var g := Small();
    assert FirstFree(g.inUse, 0) == 0 && Victim(g) == 0;
    assert Owners(g.slotOf, 0) == {};
    assert g.slotOf - {} == g.slotOf && g.uploadPending - {} == g.uploadPending && g.uploadStage - {} == g.uploadStage;
    assert g.lastUse[0 := 1] == [1, 0] && g.inUse[0 := true] == [true, false];
    assert g.slotOf[j := 0] == map[j := 0];
  }

  lemma StagesFirst(j: nat, w: Block)
    ensures Shaped(Small()) && Stage(Small(), j, w) == OneStaged(j, w) && Initial(Small())
  {
    AcquiresFirst(j);
    StageIs(Small(), j, w);
    var a := Acquire(Small(), j).0;
    hide Acquire, Stage, Shaped;
    assert Claim(a) == (a, 0);
    assert Upload(a, j, 0, 0, w) == OneStaged(j, w);
  }

  /** The state in which the mark of j's upload is cleared. */
  function Unmarked(j: nat, w: Block): Gpu {
    OneStaged(j, w).(slotPending := [false], uploadPending := map[j := false])
  }

  lemma AcquiresSecond(j: nat, k: nat, w: Block)
    requires j != k
    ensures Shaped(Unmarked(j, w)) && !SafeClaim(Unmarked(j, w), k)
    ensures Acquire(Unmarked(j, w), k) ==
      (Unmarked(j, w).(lastUse := [1, 2], inUse := [true, true], clock := 2, slotOf := map[j := 0, k := 1]), 1, true)
  {
    var g := Unmarked(j, w);
    assert g.queue[0].stage == 0;
    assert FirstFree(g.inUse, 0) == 1 && Victim(g) == 1;
    assert Owners(g.slotOf, 1) == {};
    assert g.slotOf - {} == g.slotOf && g.uploadPending - {} == g.uploadPending && g.uploadStage - {} == g.uploadStage;
    assert g.lastUse[1 := 2] == [1, 2] && g.inUse[1 := true] == [true, true];
    assert g.slotOf[k := 1] == map[j := 0, k := 1];
  }

  lemma StagesSecond(j: nat, k: nat, w: Block, other: Block)
    requires j != k
    ensures Shaped(Unmarked(j, other)) && Stage(Unmarked(j, other), k, w) == Overwritten(j, k, w)
  {
    AcquiresSecond(j, k, other);
    StageIs(Unmarked(j, other), k, w);
    var a := Acquire(Unmarked(j, other), k).0;
    hide Acquire, Stage, Shaped;
    assert Claim(a) == (a, 0);
    assert Upload(a, k, 1, 0, w) == Overwritten(j, k, w);
  }

  lemma ReadsTheOther(j: nat, k: nat, w: Block)
    requires j != k
    ensures Shaped(Overwritten(j, k, w)) && Compute(Host(Overwritten(j, k, w), 1), j).1 == Some(w)
  {
    var g := Overwritten(j, k, w);
    assert Shaped(g) && !Waits(g, j);
    var c := CopyOne(g);
    assert c.dev == [w, []] && c.done == 1;
    assert DrainTo(g, 1) == DrainTo(c, 1) == c;
  }

  lemma RunStarts(x: Host, a: Action, rest: seq<Action>, weights: nat -> Block, mid: Host, y: Host, before: set<nat>)
    requires Possible(x, a) && Act(x, a, weights) == mid
    ensures Reaches(mid, rest, weights, y) ==> Reaches(x, [a] + rest, weights, y)
    ensures SafeRun(x, [a] + rest, weights) <==> SafeAct(x, a) && SafeRun(mid, rest, weights)
    ensures SpoiltRun(x, [a] + rest, weights, before) == SpoiltRun(mid, rest, weights, SpoiltAct(x, a, before))
  {
    hide Possible, Act, SafeAct, SpoiltAct;
    assert ([a] + rest)[1..] == rest;
  }

  lemma ActsFirst(j: nat, weights: nat -> Block)
    requires j > 0
    ensures Initial(Small()) && Possible(Host(Small(), 0), Plain(StageStep(j)))
    ensures Act(Host(Small(), 0), Plain(StageStep(j)), weights) == Host(OneStaged(j, weights(j)), 0)
    ensures SpoiltAct(Host(Small(), 0), Plain(StageStep(j)), {}) == {}
  {
    StagesFirst(j, weights(j));
    hide Stage;
  }

  lemma ActsSecond(j: nat, weights: nat -> Block)
    ensures Possible(Host(OneStaged(j, weights(j)), 0), ComputeFails(j))
    ensures Act(Host(OneStaged(j, weights(j)), 0), ComputeFails(j), weights) == Host(Unmarked(j, weights(j)), 1)
    ensures SpoiltAct(Host(OneStaged(j, weights(j)), 0), ComputeFails(j), {}) == {}
  {
    assert Shaped(OneStaged(j, weights(j)));
  }

  lemma ActsThird(j: nat, k: nat, weights: nat -> Block)
    requires k > 0 && j != k
    ensures var two, c := Host(Unmarked(j, weights(j)), 1), Plain(StageStep(k));
      && Possible(two, c) && !SafeAct(two, c) && Act(two, c, weights) == Host(Overwritten(j, k, weights(k)), 1)
      && SpoiltAct(two, c, {}) == {}
  {
    AcquiresSecond(j, k, weights(j));
    StagesSecond(j, k, weights(k), weights(j));
    hide Stage, Acquire;
  }

  /** Stage j, fail to compute on it, stage k. */
  function Accident(j: nat, k: nat): seq<Action> {
    [Plain(StageStep(j)), ComputeFails(j), Plain(StageStep(k))]
  }

  lemma AccidentIs(j: nat, k: nat)
    ensures Accident(j, k) == [Plain(StageStep(j))] + ([ComputeFails(j)] + ([Plain(StageStep(k))] + []))
  {
  }

  lemma AccidentRuns(j: nat, k: nat, weights: nat -> Block)
    requires j > 0 && k > 0 && j != k
    ensures Reaches(Host(Small(), 0), Accident(j, k), weights, Host(Overwritten(j, k, weights(k)), 1))
    ensures !SafeRun(Host(Small(), 0), Accident(j, k), weights)
    ensures SpoiltRun(Host(Small(), 0), Accident(j, k), weights, {}) == {}
  {
    var x, y := Host(Small(), 0), Host(Overwritten(j, k, weights(k)), 1);
    var one, two := Host(OneStaged(j, weights(j)), 0), Host(Unmarked(j, weights(j)), 1);
    var a, b, c := Plain(StageStep(j)), ComputeFails(j), Plain(StageStep(k));
    AccidentIs(j, k);
    hide *;
    ActsFirst(j, weights);
    ActsSecond(j, weights);
    ActsThird(j, k, weights);
    RunStarts(two, c, [], weights, y, y, {});
    RunStarts(one, b, [c] + [], weights, two, y, {});
    RunStarts(x, a, [b] + ([c] + []), weights, one, y, {});
    RunEnds(y, weights);
  }

  /** One failing computation is enough to overwrite an upload that is still queued:
      with one pinned slot, staging j, failing to compute on j and staging k makes
      the next computation on j read k's weights, though no staging failed. */
  lemma FailedComputeCorrupts(j: nat, k: nat, weights: nat -> Block) returns (y: Host)
    requires j > 0 && k > 0 && j != k
    ensures Initial(Small()) && Reaches(Host(Small(), 0), Accident(j, k), weights, y)
    ensures !SafeRun(Host(Small(), 0), Accident(j, k), weights)
    ensures SpoiltRun(Host(Small(), 0), Accident(j, k), weights, {}) == {}
    ensures Shaped(y.g) && j in y.g.slotOf && Compute(y, j).1 == Some(weights(k))
  {
    y := Host(Overwritten(j, k, weights(k)), 1);
    ActsFirst(j, weights);
    ReadsTheOther(j, k, weights(k));
    assert j in y.g.slotOf;
    hide *;
    AccidentRuns(j, k, weights);
  }

  lemma RunEnds(y: Host, weights: nat -> Block)
    ensures Reaches(y, [], weights, y) && SpoiltRun(y, [], weights, {}) == {}
  {
  }
}
