/** The GPU expert cache as a state machine over host calls and an asynchronous
    copy stream. The stream is a queue of host-to-device copies that the device
    carries out in order, at any time; an event is a position in that queue. A
    queued copy reads its pinned host slot only when it is carried out. */
module GpuModel {
  import opened Bytes

  type Block = seq<byte>

  /** A queued copy from a pinned host slot to a device slot, and the expert it is for. */
  datatype Copy = Copy(stage: nat, slot: nat, key: nat)

  /** host and dev are the pinned and the device buffers, and held says for which
      expert each device slot was last written; issued and done count the copies
      put on the stream and carried out; event[s] is the position recorded for
      pinned slot s. lastUse and inUse are each device slot's use stamp and
      whether it was ever taken, clock the last stamp given out; slotPending marks
      the pinned slots whose upload is not consumed yet and nextStage is the next
      one to hand out. slotOf maps resident experts to their device slots;
      uploadPending says whether the wait for an expert's upload is still to
      come, uploadStage which pinned slot it went through. */
  datatype Gpu = Gpu(host: seq<Block>, dev: seq<Block>, held: seq<Option<nat>>,
                     queue: seq<Copy>, issued: nat, done: nat, event: seq<nat>,
                     lastUse: seq<int>, inUse: seq<bool>, slotPending: seq<bool>, nextStage: nat, clock: int,
                     slotOf: map<nat, nat>, uploadPending: map<nat, bool>, uploadStage: map<nat, nat>)

  /** (layer << 16) | expert. */
  function KeyOf(layer: nat, expert: nat): nat {
    layer * 0x1_0000 + expert % 0x1_0000
  }

  /** Keys of layers from 1 on are never 0, the value that marks that nothing was evicted. */
  lemma KeyIsNotZero(layer: nat, expert: nat)
    requires layer >= 1
    ensures KeyOf(layer, expert) > 0
  {
  }

  lemma KeysDiffer(layer: nat, expert: nat, other: nat, otherExpert: nat)
    requires expert < 0x1_0000 && otherExpert < 0x1_0000 && KeyOf(layer, expert) == KeyOf(other, otherExpert)
    ensures layer == other && expert == otherExpert
  {
  }

  // ---------------------------------------------------------------- the device

  /** The device carries out the oldest queued copy. */
  function CopyOne(g: Gpu): (r: Gpu)
    requires g.queue != [] && g.queue[0].stage < |g.host| && g.queue[0].slot < |g.dev| == |g.held|
  {
    var c := g.queue[0];
    g.(dev := g.dev[c.slot := g.host[c.stage]], held := g.held[c.slot := Some(c.key)], queue := g.queue[1..],
      done := g.done + 1)
  }

  /** Every queued copy names existing slots. */
  ghost predicate QueueFits(g: Gpu) {
    |g.held| == |g.dev| && forall i :: 0 <= i < |g.queue| ==> g.queue[i].stage < |g.host| && g.queue[i].slot < |g.dev|
  }

  /** The stream has carried out the first n copies, or all there are. */
  function DrainTo(g: Gpu, n: nat): (r: Gpu)
    requires QueueFits(g)
    ensures QueueFits(r)
    decreases |g.queue|
  {
    if g.queue == [] || g.done >= n then g else DrainTo(CopyOne(g), n)
  }

  // ---------------------------------------------------------------- device slots

  /** The first of the n slots with the smallest use stamp. */
  function Oldest(lastUse: seq<int>, n: nat): (r: nat)
    requires 0 < n <= |lastUse|
    ensures r < n && forall e :: 0 <= e < n ==> lastUse[r] <= lastUse[e]
  {
    if n == 1 then 0
    else
      var r := Oldest(lastUse, n - 1);
      if lastUse[n - 1] < lastUse[r] then n - 1 else r
  }

  /** The first unused slot, or the number of slots. */
  function FirstFree(inUse: seq<bool>, from: nat): (r: nat)
    requires from <= |inUse|
    ensures from <= r <= |inUse| && (forall e :: from <= e < r ==> inUse[e]) && (r < |inUse| ==> !inUse[r])
    decreases |inUse| - from
  {
    if from == |inUse| || !inUse[from] then from else FirstFree(inUse, from + 1)
  }

  /** The slot a new expert gets: the oldest when the table is full, else a free one. */
  function Victim(g: Gpu): (r: nat)
    requires 0 < |g.dev| == |g.lastUse| == |g.inUse|
    ensures r < |g.dev|
  {
    if |g.slotOf| >= |g.dev| then Oldest(g.lastUse, |g.dev|)
    else
      var free := FirstFree(g.inUse, 0);
      if free < |g.dev| then free else 0
  }

  /** The experts held in a slot. */
  function Owners(slotOf: map<nat, nat>, slot: nat): set<nat> {
    set k | k in slotOf && slotOf[k] == slot
  }

  /** Resident: touched. Otherwise: admitted, its slot's owner forgotten. */
  function Acquire(g: Gpu, k: nat): (r: (Gpu, nat, bool))
    requires 0 < |g.dev| == |g.lastUse| == |g.inUse|
    requires forall j :: j in g.slotOf ==> g.slotOf[j] < |g.dev|
    ensures r.1 < |g.dev|
  {
    if k in g.slotOf then
      (g.(lastUse := g.lastUse[g.slotOf[k] := g.clock + 1], clock := g.clock + 1), g.slotOf[k], false)
    else
      var v := Victim(g);
      var gone := Owners(g.slotOf, v);
      (g.(lastUse := g.lastUse[v := g.clock + 1], inUse := g.inUse[v := true], clock := g.clock + 1,
          slotOf := (g.slotOf - gone)[k := v], uploadPending := g.uploadPending - gone,
            uploadStage := g.uploadStage - gone),
       v, true)
  }

  // ---------------------------------------------------------------- pinned slots

  /** The next pinned slot, round robin; when its last copy may still be queued
      the stream is drained first. */
  function Claim(g: Gpu): (r: (Gpu, nat))
    requires QueueFits(g) && g.nextStage < |g.slotPending|
    ensures r.1 == g.nextStage
  {
    var s := g.nextStage;
    var next := g.(nextStage := (s + 1) % |g.slotPending|);
    if g.slotPending[s] then
      (DrainTo(next, next.issued).(slotPending := seq(|g.slotPending|, _ => false)), s)
    else (next, s)
  }

  /** The block is copied into the pinned slot and its upload is queued and recorded. */
  function Upload(g: Gpu, k: nat, slot: nat, s: nat, w: Block): Gpu
    requires s < |g.host| && s < |g.event| && s < |g.slotPending|
  {
    g.(host := g.host[s := w], queue := g.queue + [Copy(s, slot, k)], issued := g.issued + 1,
       event := g.event[s := g.issued + 1], slotPending := g.slotPending[s := true],
       uploadPending := g.uploadPending[k := true], uploadStage := g.uploadStage[k := s])
  }

  /** The sizes fit together. */
  ghost predicate Shaped(g: Gpu) {
    && 0 < |g.dev| == |g.lastUse| == |g.inUse|
    && 0 < |g.host| == |g.event| == |g.slotPending| && g.nextStage < |g.host|
    && QueueFits(g) && g.issued == g.done + |g.queue|
    && (forall k :: k in g.slotOf ==> g.slotOf[k] < |g.dev|)
    && (forall k :: k in g.uploadStage ==> g.uploadStage[k] < |g.host|)
  }

  lemma {:induction false} DrainShaped(g: Gpu, n: nat)
    requires Shaped(g)
    ensures Shaped(DrainTo(g, n)) && DrainTo(g, n).done >= (if n <= g.issued then n else g.issued)
    ensures var r := DrainTo(g, n);
      |r.queue| <= |g.queue| && r == g.(dev := r.dev, held := r.held, queue := g.queue[|g.queue| - |r.queue|..],
        done := r.done)
    decreases |g.queue|
  {
    if g.queue != [] && g.done < n {
      var h := CopyOne(g);
      assert Shaped(h);
      DrainShaped(h, n);
      var r := DrainTo(g, n);
      assert h.queue[|h.queue| - |r.queue|..] == g.queue[|g.queue| - |r.queue|..];
    } else {
      assert g.queue[0..] == g.queue;
    }
  }

  lemma AcquireShaped(g: Gpu, k: nat)
    requires Shaped(g)
    ensures Shaped(Acquire(g, k).0) && Acquire(g, k).0.queue == g.queue && Acquire(g, k).0.host == g.host
  {
  }

  lemma ClaimShaped(g: Gpu)
    requires Shaped(g)
    ensures Shaped(Claim(g).0) && Claim(g).1 < |g.host| && |Claim(g).0.dev| == |g.dev| && |Claim(g).0.host| == |g.host|
  {
    var next := g.(nextStage := (g.nextStage + 1) % |g.slotPending|);
    assert Shaped(next);
    DrainShaped(next, next.issued);
  }

  /** gpuExpertStage without a device error. */
  ghost function Stage(g: Gpu, k: nat, w: Block): (r: Gpu)
    requires Shaped(g)
  {
    var (a, slot, need) := Acquire(g, k);
    if !need then a
    else
      AcquireShaped(g, k);
      ClaimShaped(a);
      var (c, s) := Claim(a);
      Upload(c, k, slot, s, w)
  }

  /** What can go wrong while staging: the drain before a pinned slot is reused,
      or the queueing of the upload. */
  datatype Fault = DrainFails | CopyFails

  /** gpuExpertStage with a device error: it gives up and returns false, but the
      expert is in the table already. */
  ghost function StageFailed(g: Gpu, k: nat, w: Block, fault: Fault): (r: Gpu)
    requires Shaped(g)
  {
    var (a, _, need) := Acquire(g, k);
    if !need then a
    else
      AcquireShaped(g, k);
      ClaimShaped(a);
      if fault.DrainFails? then a.(nextStage := (a.nextStage + 1) % |a.slotPending|)
      else
        var (c, s) := Claim(a);
        c.(host := c.host[s := w])
  }

  /** The wait of gpuExpertFFN: the compute stream passes the expert's recorded
      position before its kernel starts, and the pinned slot is free again. */
  ghost function Await(g: Gpu, k: nat): (r: Gpu)
    requires Shaped(g)
  {
    if k in g.uploadPending && g.uploadPending[k] && k in g.uploadStage then
      var s := g.uploadStage[k];
      var d := DrainTo(g, g.event[s]);
      DrainShaped(g, g.event[s]);
      d.(slotPending := d.slotPending[s := false], uploadPending := d.uploadPending[k := false])
    else g
  }

  /** gpuExpertFFN: refused for an expert that is not resident; otherwise the
      kernel reads the expert's device slot after the wait. */
  ghost function Ffn(g: Gpu, k: nat): (Gpu, Option<Block>)
    requires Shaped(g)
  {
    if k !in g.slotOf then (g, None)
    else
      var d := Await(g, k);
      (d, if g.slotOf[k] < |d.dev| then Some(d.dev[g.slotOf[k]]) else None)
  }

  // ---------------------------------------------------------------- runs

  datatype Step = StageStep(key: nat) | FaultStep(key: nat, fault: Fault) | FfnStep(key: nat) | DeviceStep

  ghost predicate Enabled(g: Gpu, step: Step) {
    && Shaped(g)
    && (step.StageStep? || step.FaultStep? ==> step.key > 0)
    && (step.FfnStep? ==> step.key > 0) && (step.DeviceStep? ==> g.queue != [])
  }

  /** weights gives each expert's block. */
  ghost function Do(g: Gpu, step: Step, weights: nat -> Block): Gpu
    requires Enabled(g, step)
  {
    match step
    case StageStep(k) => Stage(g, k, weights(k))
    case FaultStep(k, fault) => StageFailed(g, k, weights(k), fault)
    case FfnStep(k) => Ffn(g, k).0
    case DeviceStep => CopyOne(g)
  }

  ghost predicate Leads(g: Gpu, steps: seq<Step>, weights: nat -> Block, h: Gpu)
    decreases |steps|
  {
    if steps == [] then h == g
    else Enabled(g, steps[0]) && Leads(Do(g, steps[0], weights), steps[1..], weights, h)
  }

  /** The experts whose last admission failed to queue its upload, given those of before. */
  ghost function Spoilt(g: Gpu, step: Step, before: set<nat>): set<nat> {
    match step
    case StageStep(k) => if k in g.slotOf then before else before - {k}
    case FaultStep(k, _) => if k in g.slotOf then before else before + {k}
    case _ => before
  }

  ghost function SpoiltBy(g: Gpu, steps: seq<Step>, weights: nat -> Block, before: set<nat>): set<nat>
    decreases |steps|
  {
    if steps == [] || !Enabled(g, steps[0]) then before
    else SpoiltBy(Do(g, steps[0], weights), steps[1..], weights, Spoilt(g, steps[0], before))
  }

  /** Freshly allocated: buffers of any content, nothing mapped, nothing queued. */
  ghost predicate Initial(g: Gpu) {
    && Shaped(g) && g.queue == [] && g.issued == 0 && g.nextStage == 0 && g.clock == 0
    && (forall e :: 0 <= e < |g.held| ==> g.held[e] == None)
    && (forall e :: 0 <= e < |g.dev| ==> g.lastUse[e] == 0 && !g.inUse[e])
    && (forall s :: 0 <= s < |g.host| ==> !g.slotPending[s] && g.event[s] == 0)
    && g.slotOf == map[] && g.uploadPending == map[] && g.uploadStage == map[]
  }
}
